/**
 The task repository as an object: tables are fields, a transaction is a method that updates them row
 by row.  Each method is proved to leave exactly the database that TaskModel says.
 */
module TaskStore {
  import opened Common
  import opened CrawlPolicy
  import opened TaskModel
  import RunSummary

  /** Parent links lead to older rows, so they never form a cycle. */
  ghost predicate ParentsAreOlder(db: Db) {
    forall id :: id in db.tasks && db.tasks[id].parent.Some? ==> db.tasks[id].parent.value < id
  }

  /** Row ids are handed out in order. */
  ghost predicate IdsInUse(db: Db) {
    forall id :: id in db.tasks ==> id < db.nextTask
  }

  lemma ActiveRunExists(db: Db, run: RunId)
    requires RunIsActive(db, run)
    ensures run in db.runs
  {
  }

  /** The expiry events of the tasks below `bound`. */
  function ExpiredBelow(db: Db, run: RunId, bound: TaskId): set<LimitEvent> {
    set id | id in ActiveTasksOf(db, run) && id < bound ::
          LimitEvent(run, id, db.tasks[id].step, db.tasks[id].input.url, MaxDuration)
  }

  lemma NextExpired(db: Db, run: RunId, id: TaskId)
    ensures ExpiredBelow(db, run, id + 1) == ExpiredBelow(db, run, id)
              + if id in ActiveTasksOf(db, run)
                  then {LimitEvent(run, id, db.tasks[id].step, db.tasks[id].input.url, MaxDuration)} else {}
    ensures id in ActiveTasksOf(db, run) <==>
              id in db.tasks && db.tasks[id].run == run && TaskActive(db.tasks[id].status)
  {
  }

  class Store {
    var now: Time
    var runs: map<RunId, Run>
    var tasks: map<TaskId, Task>
    var attempts: map<AttemptKey, Attempt>
    var domains: set<Domain>
    var limits: set<LimitEvent>
    var observations: map<ItemKey, Decision>
    var nextRun: RunId
    var nextTask: TaskId

    function View(): Db
      reads this
    {
      Db(now, runs, tasks, attempts, domains, limits, observations, nextRun, nextTask)
    }

    constructor ()
      ensures View() == Db(0, map[], map[], map[], {}, {}, map[], 0, 0)
    {
      now, runs, tasks, attempts := 0, map[], map[], map[];
      domains, limits, observations := {}, {}, map[];
      nextRun, nextTask := 0, 0;
    }

    // ----- Creating ---------------------------------------------------------------------

    method StartRun(budget: Option<Budget>, input: TaskInput) returns (run: RunId)
      modifies this
      ensures var r := TaskModel.StartRun(old(View()), budget, input); View() == r.db && run == r.reply
    {
      run := nextRun;
      runs := runs[run := Run(RunQueued, None, now)];
      nextRun := nextRun + 1;
      runs := runs[run := runs[run].(budget := budget)];
      tasks := tasks[nextTask := Task(run, None, "trigger", Workflow, input, 0, now, TaskQueued, 0, 5, None, "", None,
                                      false, "", None)];
      nextTask := nextTask + 1;
    }

    /** The first task row, in id order, that does the requested work. */
    method FirstMatch(run: RunId, step: string, input: TaskInput) returns (found: Option<TaskId>)
      ensures found == FindWork(View(), run, step, input, 0)
    {
      var id := 0;
      while id < nextTask
        invariant 0 <= id
        invariant FindWork(View(), run, step, input, 0) == FindWork(View(), run, step, input, id)
        decreases nextTask - id
      {
        if id in tasks && SameWork(tasks[id], run, step, input) {
          return Some(id);
        }
        id := id + 1;
      }
      found := None;
    }

    method ChildBudgetReason(run: RunId, parent: TaskId, step: string, input: TaskInput)
      returns (reason: Option<Reason>)
      requires run in runs && parent in tasks
      ensures reason == TaskModel.ChildBudgetReason(View(), run, parent, step, input)
    {
      if runs[run].budget.None? {
        return None;
      }
      var b := runs[run].budget.value;
      if now > runs[run].createdAt + b.maxDurationSeconds {
        return Some(MaxDuration);
      }
      var ok := Allows(b, input.url);
      if !ok {
        return Some(AllowedDomains);
      }
      if tasks[parent].depth + 1 > b.maxDepth {
        return Some(MaxDepth);
      }
      if |TasksOf(View(), run)| >= b.maxTasks {
        return Some(MaxTasks);
      }
      if step == "detail" && |DetailsOf(View(), run, parent)| >= b.maxDiscoveredPerPage {
        return Some(MaxDiscoveredPerPage);
      }
      reason := None;
    }

    method CreateTask(run: RunId, parent: Option<TaskId>, step: string, kind: TaskKind, input: TaskInput,
                      maxAttempts: int, attempt: Option<Claim>) returns (reply: CreateReply)
      modifies this
      ensures var r := TaskModel.CreateTask(old(View()), run, parent, step, kind, input, maxAttempts, attempt);
              View() == r.db && reply == r.reply
    {
      hide TaskModel.ChildBudgetReason, FindWork, MarkRunning, InsertTask;
      if run !in runs || (runs[run].status != RunQueued && runs[run].status != RunRunning) {
        return RunInactive;
      }
      if parent.Some? {
        hide TaskModel.CreateTask;
        reply := CreateBelow(run, parent.value, step, kind, input, maxAttempts, attempt);
        return;
      }
      var id := InsertRow(Task(run, None, step, kind, input, 0, now, TaskQueued, 0, if maxAttempts <= 0 then 5
                               else maxAttempts,
                               None, "", None, false, "", None));
      reply := TaskCreated(id);
    }

    /** A child: its parent has to run, under the fence if there is an attempt; new work is held to the budget. */
    method CreateBelow(run: RunId, parent: TaskId, step: string, kind: TaskKind, input: TaskInput,
                       maxAttempts: int, attempt: Option<Claim>) returns (reply: CreateReply)
      requires RunIsActive(View(), run)
      modifies this
      ensures var r := TaskModel.CreateTask(old(View()), run, Some(parent), step, kind, input, maxAttempts, attempt);
              View() == r.db && reply == r.reply
    {
      ActiveRunExists(View(), run);
      hide TaskModel.ChildBudgetReason, FindWork, MarkRunning, InsertTask, RunIsActive;
      if parent !in tasks || tasks[parent].run != run || tasks[parent].status != TaskRunning {
        return StaleAttempt;
      }
      var p := tasks[parent];
      if attempt.Some? && (p.owner != attempt.value.worker || p.attemptCount != attempt.value.no
                           || p.leaseUntil.None? || p.leaseUntil.value <= now) {
        return StaleAttempt;
      }
      var row := Task(run, Some(parent), step, kind, input, 0, now, TaskQueued, 0, if maxAttempts <= 0 then 5
                      else maxAttempts,
                      None, "", None, false, "", None);
      if kind == Workflow {
        var existing := FirstMatch(run, step, input);
        if existing.Some? {
          return TaskExists(existing.value);
        }
        var reason := ChildBudgetReason(run, parent, step, input);
        if reason.Some? {
          limits := limits + {LimitEvent(run, parent, step, input.url, reason.value)};
          return BudgetExceeded(reason.value);
        }
        if runs[run].budget.Some? {
          row := row.(depth := p.depth + 1);
        }
      }
      var id := InsertRow(row);
      reply := TaskCreated(id);
    }

    /** The new row, and its run is under way. */
    method InsertRow(row: Task) returns (id: TaskId)
      requires row.run in runs
      modifies this
      ensures View() == MarkRunning(InsertTask(old(View()), row), row.run) && id == old(nextTask)
    {
      id := nextTask;
      tasks := tasks[id := row];
      nextTask := nextTask + 1;
      SetRunning(row.run);
    }

    method SetRunning(run: RunId)
      requires run in runs
      modifies this`runs
      ensures View() == MarkRunning(old(View()), run)
    {
      if runs[run].status == RunQueued {
        runs := runs[run := runs[run].(status := RunRunning)];
      }
    }

    // ----- Claiming and leases ------------------------------------------------------------

    /** The update that ends the running attempts of some tasks. */
    method EndAttempts(ids: set<TaskId>, status: AttemptStatus)
      modifies this`attempts
      ensures attempts == CloseAttempts(old(attempts), ids, status)
    {
      attempts := map k | k in attempts ::
        if k.task in ids && attempts[k].status == AttemptRunning then attempts[k].(status := status) else attempts[k];
    }

    /** Takes the oldest eligible task, if there is one. */
    method ClaimNext(worker: string, lease: int, kind: Option<TaskKind>) returns (claim: Option<Claim>)
      requires IdsInUse(View())
      modifies this
      ensures (forall id :: !Claimable(old(View()), id, kind)) ==> claim.None? && View() == old(View())
      ensures (exists id :: Claimable(old(View()), id, kind)) ==>
                exists id :: Claimable(old(View()), id, kind)
                  && (forall other ::
                        Claimable(old(View()), other, kind) ==> old(tasks)[id].createdAt <= old(tasks)[other].createdAt)
                  && var r := ClaimTask(old(View()), id, worker, lease, kind); View() == r.db && claim == r.reply
    {
      var best: Option<TaskId> := None;
      for id := 0 to nextTask
        invariant best.None? ==> forall other: TaskId :: other < id ==> !Claimable(View(), other, kind)
        invariant best.Some? ==> Claimable(View(), best.value, kind)
        invariant best.Some? ==> forall other: TaskId ::
                    other < id && Claimable(View(), other, kind) ==>
                          tasks[best.value].createdAt <= tasks[other].createdAt
        invariant View() == old(View())
      {
        if Claimable(View(), id, kind) && (best.None? || tasks[id].createdAt < tasks[best.value].createdAt) {
          best := Some(id);
        }
      }
      if best.None? {
        return None;
      }
      claim := Take(best.value, worker, lease, kind);
    }

    /** The claiming transaction: the row is checked again under its lock. */
    method Take(id: TaskId, worker: string, lease: int, kind: Option<TaskKind>) returns (claim: Option<Claim>)
      modifies this
      ensures var r := ClaimTask(old(View()), id, worker, lease, kind); View() == r.db && claim == r.reply
    {
      hide CloseAttempts, MarkRunning;
      if !Claimable(View(), id, kind) || AttemptKey(id, tasks[id].attemptCount + 1) in attempts {
        return None;
      }
      var run, no := tasks[id].run, tasks[id].attemptCount + 1;
      var until := now + if lease <= 0 then 300 else lease;
      tasks := tasks[id := tasks[id].(status := TaskRunning, attemptCount := no, owner := worker,
                                      leaseUntil := Some(until))];
      EndAttempts({id}, AttemptInterrupted);
      attempts := attempts[AttemptKey(id, no) := Attempt(worker, AttemptRunning, NoOutput)];
      SetRunning(run);
      claim := Some(Claim(id, worker, no));
    }

    method RenewLease(c: Claim, lease: int) returns (ok: bool)
      modifies this
      ensures var r := TaskModel.RenewLease(old(View()), c, lease); View() == r.db && ok == r.reply
    {
      if lease <= 0 || c.task !in tasks {
        return false;
      }
      var t := tasks[c.task];
      if t.status == TaskRunning && t.owner == c.worker && t.attemptCount == c.no && t.leaseUntil.Some?
          && t.leaseUntil.value > now {
        tasks := tasks[c.task := t.(leaseUntil := Some(now + lease))];
        return true;
      }
      ok := false;
    }

    // ----- Ending an attempt ----------------------------------------------------------------

    /** Completes an attempt and then, in a second transaction, tries to finish the run. */
    method CompleteStatus(task: TaskId, no: nat, output: Output, status: TaskStatus) returns (ok: bool)
      requires IdsInUse(View())
      modifies this
      ensures !AttemptLooksActive(old(View()), task, no) ==> !ok && View() == old(View())
      ensures AttemptLooksActive(old(View()), task, no) ==>
                var r := CommitComplete(old(View()), Claim(task, old(attempts)[AttemptKey(task, no)].worker, no),
                                        output, status);
                ok == r.reply && View() == if ok then TaskModel.TryFinishRun(r.db, task) else old(View())
    {
      var key := AttemptKey(task, no);
      if key !in attempts || attempts[key].status != AttemptRunning {
        return false;
      }
      var c := Claim(task, attempts[key].worker, no);
      if !Fenced(View(), c) {
        return false;
      }
      tasks := tasks[task := tasks[task].(status := status, owner := "", leaseUntil := None)];
      attempts := attempts[key := attempts[key].(status := AttemptOutcome(status), output := output)];
      TryFinishRun(task);
      ok := true;
    }

    /** Fails an attempt; the retry decision is taken from the row as read before the transaction. */
    method Fail(task: TaskId, no: nat, retryable: bool, random: nat) returns (ok: bool, willRetry: bool)
      requires IdsInUse(View())
      modifies this
      ensures task !in old(tasks) || !AttemptLooksActive(old(View()), task, no) ==> !ok && View() == old(View())
      ensures task in old(tasks) && AttemptLooksActive(old(View()), task, no) ==>
                var retry := retryable && old(tasks)[task].attemptCount < old(tasks)[task].maxAttempts;
                var r := CommitFail(old(View()), Claim(task, old(attempts)[AttemptKey(task, no)].worker, no), retry,
                                    old(now) + BackoffDelay(old(tasks)[task].attemptCount, random));
                ok == r.reply && willRetry == (ok && retry) &&
                View() == if ok && !retry then TaskModel.TryFinishRun(r.db, task) else r.db
    {
      var key := AttemptKey(task, no);
      ok, willRetry := false, false;
      if task !in tasks || key !in attempts || attempts[key].status != AttemptRunning {
        return;
      }
      var retry := retryable && tasks[task].attemptCount < tasks[task].maxAttempts;
      if !Fenced(View(), Claim(task, attempts[key].worker, no)) {
        return;
      }
      if retry {
        var next := now + BackoffDelay(tasks[task].attemptCount, random);
        tasks := tasks[task := tasks[task].(status := TaskQueued, nextRetry := Some(next), owner := "",
                                            leaseUntil := None)];
      } else {
        tasks := tasks[task := tasks[task].(status := TaskDeadLetter, owner := "", leaseUntil := None)];
      }
      attempts := attempts[key := attempts[key].(status := AttemptFailed)];
      if !retry {
        TryFinishRun(task);
      }
      ok, willRetry := true, retry;
    }

    method RecoverTask(id: TaskId) returns (changed: bool)
      modifies this
      ensures var r := TaskModel.RecoverTask(old(View()), id); View() == r.db && changed == r.reply
    {
      if id !in tasks || tasks[id].status != TaskRunning || tasks[id].leaseUntil.None?
          || tasks[id].leaseUntil.value >= now {
        return false;
      }
      var status := TaskQueued;
      if tasks[id].attemptCount >= tasks[id].maxAttempts {
        status := TaskDeadLetter;
      }
      tasks := tasks[id := tasks[id].(status := status, nextRetry := Some(now), owner := "", leaseUntil := None)];
      EndAttempts({id}, AttemptInterrupted);
      changed := true;
    }

    /** Stores the page and points the task at it, under the fence. */
    method SaveDocument(c: Claim, document: nat) returns (ok: bool)
      modifies this
      ensures var r := TaskModel.SaveDocument(old(View()), c, document); View() == r.db && ok == r.reply
    {
      if !MayWrite(View(), c) {
        return false;
      }
      tasks := tasks[c.task := tasks[c.task].(document := Some(document))];
      ok := true;
    }

    /** The batch of observations a record task commits under the fence. */
    method SaveRecords(c: Claim, decisions: seq<Decision>) returns (ok: bool)
      modifies this
      ensures var r := TaskModel.SaveRecords(old(View()), c, decisions); View() == r.db && ok == r.reply
    {
      if !MayWrite(View(), c) {
        return false;
      }
      for i := 0 to |decisions|
        invariant View() == old(View()).(observations := Observe(old(observations), c.task, decisions[..i]))
      {
        assert decisions[..i + 1][..i] == decisions[..i];
        if ItemKey(c.task, i) !in observations {
          observations := observations[ItemKey(c.task, i) := decisions[i]];
        }
      }
      assert decisions[..|decisions|] == decisions;
      ok := true;
    }

    // ----- Pages and domains ------------------------------------------------------------------

    method ReserveDomain(run: RunId, b: Budget, host: string) returns (reason: Option<Reason>)
      modifies this
      ensures var r := TaskModel.ReserveDomain(old(View()), run, b, host); View() == r.db && reason == r.reply
    {
      var rows := set d | d in domains && d.run == run;
      if Domain(run, host) in rows {
        return None;
      }
      assert rows == DomainsOf(View(), run);
      if |rows| >= b.maxDomains {
        return Some(MaxDomains);
      }
      domains := domains + {Domain(run, host)};
      reason := None;
    }

    method ReservePage(c: Claim, url: PageUrl) returns (reply: PageReply)
      modifies this
      ensures var r := TaskModel.ReservePage(old(View()), c, url); View() == r.db && reply == r.reply
    {
      if !MayWrite(View(), c) {
        return PageStale;
      }
      var t := tasks[c.task];
      var run := runs[t.run];
      if run.budget.None? {
        return NoBudget;
      }
      var b := run.budget.value;
      var reason: Option<Reason> := None;
      var ok := Allows(b, url);
      if now > run.createdAt + b.maxDurationSeconds {
        reason := Some(MaxDuration);
      } else if !ok {
        reason := Some(AllowedDomains);
      } else if t.depth > b.maxDepth {
        reason := Some(MaxDepth);
      }
      if reason.None? && !t.pageReserved {
        if |PagesOf(View(), t.run)| >= b.maxPages {
          reason := Some(MaxPages);
        } else {
          reason := ReserveDomain(t.run, b, url.host);
          if reason.None? {
            tasks := tasks[c.task := t.(pageReserved := true, pageHost := url.host)];
          }
        }
      }
      if reason.Some? {
        limits := limits + {LimitEvent(t.run, c.task, t.step, url, reason.value)};
        return PageRefused(reason.value);
      }
      reply := PageAdmitted;
    }

    method CheckPageUrl(c: Claim, url: PageUrl) returns (reply: PageReply)
      modifies this
      ensures var r := TaskModel.CheckPageUrl(old(View()), c, url); View() == r.db && reply == r.reply
    {
      if !MayWrite(View(), c) {
        return PageStale;
      }
      var t := tasks[c.task];
      var run := runs[t.run];
      var reason: Option<Reason> := None;
      if run.budget.None? {
        reason := Some(MaxDuration);
      } else {
        var b := run.budget.value;
        var ok := Allows(b, url);
        if now > run.createdAt + b.maxDurationSeconds {
          reason := Some(MaxDuration);
        } else if !ok {
          reason := Some(AllowedDomains);
        } else {
          reason := ReserveDomain(t.run, b, url.host);
        }
      }
      if reason.Some? {
        limits := limits + {LimitEvent(t.run, c.task, t.step, url, reason.value)};
        return PageRefused(reason.value);
      }
      reply := PageAdmitted;
    }

    // ----- Cancelling, expiring, retrying -------------------------------------------------------

    /** The recursive query over parent links: each round adds the children of the rows found last. */
    method Descendants(root: TaskId) returns (ids: set<TaskId>)
      requires ParentsAreOlder(View()) && root in tasks
      ensures ids == Subtree(View(), root)
    {
      ids := {root};
      var working := {root};
      while working != {}
        invariant working <= ids <= tasks.Keys
        invariant root in ids
        invariant forall id :: id in ids ==> Under(View(), root, id)
        invariant forall id ::
                    id in tasks && tasks[id].parent.Some? && tasks[id].parent.value in ids - working ==> id in ids
        decreases tasks.Keys - ids, working
      {
        var next := set id | id in tasks && tasks[id].parent.Some? && tasks[id].parent.value in working && id !in ids;
        ids := ids + next;
        working := next;
      }
      forall id | Under(View(), root, id) ensures id in ids {
        ClosureHasSubtree(View(), root, id, ids);
      }
    }

    method CancelTask(id: TaskId) returns (reply: CancelReply)
      requires ParentsAreOlder(View())
      modifies this
      ensures var r := TaskModel.CancelTask(old(View()), id); View() == r.db && reply == r.reply
    {
      if id !in tasks {
        return TaskMissing;
      }
      if !RunIsActive(View(), tasks[id].run) {
        return RunNotActive;
      }
      if tasks[id].status != TaskQueued && tasks[id].status != TaskRunning {
        return TaskNotActive;
      }
      hide Under, CloseTasks, CloseAttempts;
      var ids := Descendants(id);
      CloseRows(ids);
      reply := Cancelled;
    }

    /** The update of the rows found, one after the other. */
    method CloseRows(ids: set<TaskId>)
      modifies this
      ensures View() == old(View()).(tasks := CloseTasks(old(tasks), ids, TaskCancelled),
                                     attempts := CloseAttempts(old(attempts), ids, AttemptCancelled))
    {
      ghost var db := View();
      var rest := ids;
      while rest != {}
        invariant rest <= ids
        invariant View() == db.(tasks := CloseTasks(db.tasks, ids - rest, TaskCancelled),
                                attempts := CloseAttempts(db.attempts, ids - rest, AttemptCancelled))
        decreases rest
      {
        var row :| row in rest;
        CloseRow(row);
        CloseOneMore(db.tasks, ids - rest, row, TaskCancelled);
        CloseOneMoreAttempts(db.attempts, ids - rest, row, AttemptCancelled);
        assert ids - (rest - {row}) == ids - rest + {row};
        rest := rest - {row};
      }
      assert ids - rest == ids;
    }

    /** Cancels one row and its running attempt. */
    method CloseRow(row: TaskId)
      modifies this
      ensures View() == old(View()).(tasks := CloseTasks(old(tasks), {row}, TaskCancelled),
                                     attempts := CloseAttempts(old(attempts), {row}, AttemptCancelled))
    {
      if row in tasks && (tasks[row].status == TaskQueued || tasks[row].status == TaskRunning) {
        tasks := tasks[row := tasks[row].(status := TaskCancelled, owner := "", leaseUntil := None)];
      }
      assert tasks == CloseTasks(old(tasks), {row}, TaskCancelled);
      EndAttempts({row}, AttemptCancelled);
    }

    /** The two bulk updates that end every open row of a run. */
    method CloseRun(run: RunId, status: TaskStatus, attemptStatus: AttemptStatus)
      modifies this
      ensures View() == old(View()).(tasks := CloseTasks(old(tasks), TasksOf(old(View()), run), status),
                                     attempts := CloseAttempts(old(attempts), TasksOf(old(View()), run), attemptStatus))
    {
      var ids := set id | id in tasks && tasks[id].run == run;
      assert ids == TasksOf(View(), run);
      tasks := map id | id in tasks ::
        if id in ids && (tasks[id].status == TaskQueued || tasks[id].status == TaskRunning)
        then tasks[id].(status := status, owner := "", leaseUntil := None) else tasks[id];
      assert tasks == CloseTasks(old(tasks), ids, status);
      EndAttempts(ids, attemptStatus);
    }

    method CancelRun(run: RunId) returns (ok: bool)
      modifies this
      ensures var r := TaskModel.CancelRun(old(View()), run); View() == r.db && ok == r.reply
    {
      if run !in runs || (runs[run].status != RunQueued && runs[run].status != RunRunning) {
        return false;
      }
      ghost var db := View();
      runs := runs[run := runs[run].(status := RunCancelled)];
      assert TasksOf(View(), run) == TasksOf(db, run);
      CloseRun(run, TaskCancelled, AttemptCancelled);
      ok := true;
    }

    method ExpireRun(run: RunId) returns (closed: bool)
      requires IdsInUse(View())
      modifies this
      ensures var r := TaskModel.ExpireRun(old(View()), run); View() == r.db && closed == r.reply
    {
      if run !in runs || (runs[run].status != RunQueued && runs[run].status != RunRunning) {
        return false;
      }
      if runs[run].budget.None? || now < runs[run].createdAt + runs[run].budget.value.maxDurationSeconds {
        return false;
      }
      ghost var db := View();
      closed := NoteExpiry(run);
      assert TasksOf(View(), run) == TasksOf(db, run);
      CloseRun(run, TaskLimited, AttemptLimited);
    }

    /** Each open task of the run gets its event; replies whether there is one. */
    method NoteExpiry(run: RunId) returns (closed: bool)
      requires IdsInUse(View())
      modifies this`limits
      ensures limits == old(limits) + ExpireEvents(old(View()), run)
      ensures closed <==> ActiveTasksOf(old(View()), run) != {}
    {
      ghost var db := View();
      closed := false;
      for id := 0 to nextTask
        invariant View() == db.(limits := db.limits + ExpiredBelow(db, run, id))
        invariant closed ==> ActiveTasksOf(db, run) != {}
        invariant !closed ==> forall other: TaskId :: other < id ==> other !in ActiveTasksOf(db, run)
      {
        NextExpired(db, run, id);
        if id in tasks && tasks[id].run == run && (tasks[id].status == TaskQueued || tasks[id].status == TaskRunning) {
          limits := limits + {LimitEvent(run, id, tasks[id].step, tasks[id].input.url, MaxDuration)};
          closed := true;
        }
      }
      assert ExpiredBelow(db, run, nextTask) == ExpireEvents(db, run);
    }

    /** Retrying a failed task: both rows are read first, then the transaction checks the run again. */
    method RetryTask(id: TaskId) returns (ok: bool)
      modifies this
      ensures id !in old(tasks) ==> !ok && View() == old(View())
      ensures id in old(tasks) ==>
                var r := CommitRetry(old(View()), id, RetryLimit(old(tasks)[id].attemptCount,
                                                                 old(tasks)[id].maxAttempts));
                View() == r.db && ok == r.reply
    {
      if id !in tasks || tasks[id].run !in runs {
        return false;
      }
      var t := tasks[id];
      var run := runs[t.run];
      if run.status != RunFailed && run.status != RunPartial && run.status != RunRunning {
        return false;
      }
      if run.budget.Some? && now >= run.createdAt + run.budget.value.maxDurationSeconds {
        return false;
      }
      var limit := t.maxAttempts;
      if t.attemptCount >= limit {
        limit := t.attemptCount + 5;
      }
      if t.status != TaskDeadLetter && t.status != TaskFailed {
        return false;
      }
      tasks := tasks[id := t.(status := TaskQueued, maxAttempts := limit, nextRetry := Some(now))];
      runs := runs[t.run := run.(status := RunRunning)];
      ok := true;
    }

    method RerunRun(run: RunId) returns (started: Option<RunId>)
      modifies this
      ensures var r := TaskModel.RerunRun(old(View()), run); View() == r.db && started == r.reply
    {
      if run !in runs {
        return None;
      }
      var id := 0;
      while id < nextTask && !(id in tasks && tasks[id].run == run && tasks[id].parent.None?)
        invariant 0 <= id
        invariant FindRoot(View(), run, 0) == FindRoot(View(), run, id)
        decreases nextTask - id
      {
        id := id + 1;
      }
      if id >= nextTask {
        return None;
      }
      var root := tasks[id];
      var rerun := nextRun;
      runs := runs[rerun := Run(RunQueued, runs[run].budget, now)];
      nextRun := nextRun + 1;
      tasks := tasks[nextTask := Task(rerun, None, root.step, root.kind, root.input, 0, now, TaskQueued, 0, 5, None, "",
                                      None, false, "", None)];
      nextTask := nextTask + 1;
      started := Some(rerun);
    }

    // ----- Finishing ------------------------------------------------------------------------------

    /** The output column of the lateral join: the task's latest succeeded attempt. */
    method ReadOutput(id: TaskId) returns (output: Output)
      requires id in tasks
      ensures output == OutputOf(View(), id)
    {
      var no := tasks[id].attemptCount;
      while no > 0
        invariant LastOutput(View(), id, tasks[id].attemptCount) == LastOutput(View(), id, no)
      {
        var k := AttemptKey(id, no);
        if k in attempts && attempts[k].status == AttemptSucceeded {
          return attempts[k].output;
        }
        no := no - 1;
      }
      output := NoOutput;
    }

    /** The rows of a run's tasks, each with the output of its latest succeeded attempt. */
    method QueryRows(run: RunId) returns (rows: seq<RunSummary.Row>)
      requires IdsInUse(View())
      ensures RowsCover(View(), run, nextTask, rows)
    {
      rows := [];
      for id := 0 to nextTask
        invariant RowsCover(View(), run, id, rows)
      {
        if id in tasks && tasks[id].run == run {
          var output := ReadOutput(id);
          RowsExtend(View(), run, id, rows);
          rows := rows + [RunSummary.Row(tasks[id].kind, tasks[id].status, output)];
        }
      }
    }

    /** Closes an overdue run and, when that ended a task, tries to finish it. */
    method ExpireBudgetRun(run: RunId)
      requires IdsInUse(View())
      modifies this
      ensures View() == ExpireAndFinish(old(View()), run)
    {
      var open := ActiveTasksOf(View(), run);
      ghost var before := View();
      var closed := ExpireRun(run);
      if closed {
        var first :| first in open;
        ExpiryLeavesNoOpenTask(before, run, first);
        TryFinishRun(first);
      }
    }

    method RecoverLeases() returns (recovered: nat)
      requires IdsInUse(View())
      modifies this
      ensures var r := RecoverBelow(old(View()), old(nextTask)); View() == r.db && recovered == r.reply
      ensures nextTask == old(nextTask) && nextRun == old(nextRun) && IdsInUse(View())
    {
      recovered := 0;
      for id := 0 to nextTask
        invariant nextTask == old(nextTask) && nextRun == old(nextRun) && IdsInUse(View())
        invariant RecoverBelow(old(View()), id) == Tx(View(), recovered)
      {
        ghost var before := View();
        var changed := RecoverTask(id);
        RecoveryKeepsIds(before, id);
        if changed {
          recovered := recovered + 1;
          TryFinishRun(id);
        }
      }
    }

    /** The periodic sweep: expired leases are given back, overdue runs are closed. */
    method RecoverExpiredLeases() returns (recovered: nat)
      requires IdsInUse(View())
      modifies this
      ensures var r := RecoverBelow(old(View()), old(nextTask));
              View() == ExpireBelow(r.db, old(nextRun)) && recovered == r.reply
    {
      recovered := RecoverLeases();
      ghost var begun := View();
      for run := 0 to nextRun
        invariant nextRun == old(nextRun) && IdsInUse(View()) && View() == ExpireBelow(begun, run)
      {
        ghost var before := View();
        ExpireBudgetRun(run);
        ExpiryKeepsIds(before, run);
      }
    }

    /** The verdict on a run, unless one of its tasks is still open. */
    method Decide(run: RunId) returns (open: bool, status: RunStatus)
      requires IdsInUse(View())
      ensures open <==> ActiveTasksOf(View(), run) != {}
      ensures !open ==> status == FinalStatus(View(), run)
    {
      var rows := QueryRows(run);
      ghost var db := View();
      OpenRows(db, run, rows);
      FinalStatusFromRows(db, run, rows);
      var observed, events := ObservedBy(View(), run), LimitsOf(View(), run);
      var workflowRun, summary;
      open, workflowRun, summary := RunSummary.Summarise(rows);
      status := RunSummary.Aggregate(summary.failed > 0, summary.cancelled > 0);
      if workflowRun {
        status := summary.Status(|observed|, |events|);
      }
    }

    method TryFinishRun(task: TaskId)
      requires IdsInUse(View())
      modifies this
      ensures View() == TaskModel.TryFinishRun(old(View()), task)
    {
      if task !in tasks || !RunIsActive(View(), tasks[task].run) {
        return;
      }
      var run := tasks[task].run;
      var open, status := Decide(run);
      if !open {
        runs := runs[run := runs[run].(status := status)];
      }
    }
  }

  lemma ExpiryLeavesNoOpenTask(db: Db, run: RunId, first: TaskId)
    requires first in ActiveTasksOf(db, run) && TaskModel.ExpireRun(db, run).reply
    ensures var e := TaskModel.ExpireRun(db, run).db;
            && RunIsActive(e, run) && ActiveTasksOf(e, run) == {} && first in e.tasks && e.tasks[first].run == run
  {
  }

  lemma RecoveryKeepsIds(db: Db, id: TaskId)
    requires IdsInUse(db)
    ensures IdsInUse(TaskModel.RecoverTask(db, id).db)
  {
  }

  lemma ExpiryKeepsIds(db: Db, run: RunId)
    requires IdsInUse(db)
    ensures var n := ExpireAndFinish(db, run); IdsInUse(n) && n.nextRun == db.nextRun && n.nextTask == db.nextTask
  {
  }

  // ----- What the sweep achieves ----------------------------------------------------------------

  ghost predicate NoExpiredLease(db: Db, bound: TaskId) {
    forall id :: id in db.tasks && id < bound ==> !(db.tasks[id].status == TaskRunning
                                                    && LeaseExpired(db, db.tasks[id]))
  }

  ghost predicate NoOverdueTask(db: Db, bound: RunId) {
    forall r :: r in db.runs && r < bound && Overdue(db, r) ==> ActiveTasksOf(db, r) == {}
  }

  /** Recovering one task expires no other lease. */
  lemma RecoveryAdvances(before: Db, id: TaskId)
    requires NoExpiredLease(before, id)
    ensures var r := TaskModel.RecoverTask(before, id);
            var after := if r.reply then TaskModel.TryFinishRun(r.db, id) else before;
            NoExpiredLease(after, id + 1) && after.tasks.Keys == before.tasks.Keys
                && after.runs.Keys == before.runs.Keys && after.now == before.now
  {
  }

  lemma {:induction false} RecoveryReaches(db: Db, bound: TaskId)
    ensures var n := RecoverBelow(db, bound).db;
            NoExpiredLease(n, bound) && n.tasks.Keys == db.tasks.Keys && n.runs.Keys == db.runs.Keys && n.now == db.now
  {
    hide TaskModel.RecoverTask, TaskModel.TryFinishRun;
    if bound > 0 {
      RecoveryReaches(db, bound - 1);
      RecoveryAdvances(RecoverBelow(db, bound - 1).db, bound - 1);
    }
  }

  /** Closing one run leaves no open task in it and opens none elsewhere. */
  lemma ExpiryAdvances(before: Db, run: RunId, bound: TaskId)
    requires NoExpiredLease(before, bound) && NoOverdueTask(before, run)
    ensures var after := ExpireAndFinish(before, run);
            && NoExpiredLease(after, bound) && NoOverdueTask(after, run + 1)
            && after.tasks.Keys == before.tasks.Keys && after.runs.Keys == before.runs.Keys && after.now == before.now
  {
    hide FinalStatus;
    var after := ExpireAndFinish(before, run);
    ExpiryOpensNothing(before, run);
    hide TaskModel.ExpireRun, ExpireAndFinish;
    forall r | r in after.runs && r <= run && Overdue(after, r) ensures ActiveTasksOf(after, r) == {} {
      assert Overdue(before, r);
    }
  }

  lemma ExpiryOpensNothing(before: Db, run: RunId)
    ensures var after := ExpireAndFinish(before, run);
            && after.tasks.Keys == before.tasks.Keys && after.runs.Keys == before.runs.Keys && after.now == before.now
            && (forall t ::
                  t in before.tasks ==> after.tasks[t] == before.tasks[t] || !TaskActive(after.tasks[t].status))
            && (forall r :: ActiveTasksOf(after, r) <= ActiveTasksOf(before, r))
            && (forall r :: Overdue(after, r) ==> Overdue(before, r))
            && (Overdue(before, run) ==> ActiveTasksOf(after, run) == {})
  {
    hide FinalStatus;
  }

  lemma {:induction false} ExpiryReaches(db: Db, bound: RunId, tasks: TaskId)
    requires NoExpiredLease(db, tasks)
    ensures var n := ExpireBelow(db, bound);
            && NoExpiredLease(n, tasks) && NoOverdueTask(n, bound)
            && n.tasks.Keys == db.tasks.Keys && n.runs.Keys == db.runs.Keys && n.now == db.now
  {
    hide ExpireAndFinish;
    if bound > 0 {
      ExpiryReaches(db, bound - 1, tasks);
      ExpiryAdvances(ExpireBelow(db, bound - 1), bound - 1, tasks);
    }
  }

  /** After the sweep no lease is expired, and a run whose time is up has no open task. */
  lemma SweepReachesAll(db: Db)
    requires IdsInUse(db) && forall r :: r in db.runs ==> r < db.nextRun
    ensures var n := ExpireBelow(RecoverBelow(db, db.nextTask).db, db.nextRun);
            && (forall id :: id in n.tasks ==> !(n.tasks[id].status == TaskRunning && LeaseExpired(n, n.tasks[id])))
            && (forall r :: r in n.runs && Overdue(n, r) ==> ActiveTasksOf(n, r) == {})
  {
    RecoveryReaches(db, db.nextTask);
    ExpiryReaches(RecoverBelow(db, db.nextTask).db, db.nextRun, db.nextTask);
    hide RecoverBelow, ExpireBelow, Overdue;
  }

  lemma CloseOneMore(tasks: map<TaskId, Task>, ids: set<TaskId>, id: TaskId, status: TaskStatus)
    requires !TaskActive(status)
    ensures CloseTasks(CloseTasks(tasks, ids, status), {id}, status) == CloseTasks(tasks, ids + {id}, status)
  {
  }

  lemma CloseOneMoreAttempts(attempts: map<AttemptKey, Attempt>, ids: set<TaskId>, id: TaskId, status: AttemptStatus)
    ensures CloseAttempts(CloseAttempts(attempts, ids, status), {id}, status)
            == CloseAttempts(attempts, ids + {id}, status)
  {
  }

  lemma {:induction false} ClosureHasSubtree(db: Db, root: TaskId, id: TaskId, ids: set<TaskId>)
    requires Under(db, root, id) && root in ids
    requires forall t :: t in db.tasks && db.tasks[t].parent.Some? && db.tasks[t].parent.value in ids ==> t in ids
    ensures id in ids
    decreases id
  {
    if id != root {
      ClosureHasSubtree(db, root, db.tasks[id].parent.value, ids);
    }
  }

  function RowOf(db: Db, id: TaskId): RunSummary.Row
    requires id in db.tasks
  {
    RunSummary.Row(db.tasks[id].kind, db.tasks[id].status, OutputOf(db, id))
  }

  /** `rows` are the rows of the run's tasks with an id below `bound`. */
  ghost predicate RowsCover(db: Db, run: RunId, bound: TaskId, rows: seq<RunSummary.Row>) {
    && (forall id :: id < bound && id in db.tasks && db.tasks[id].run == run ==> RowOf(db, id) in rows)
    && (forall row :: row in rows ==> exists id ::
          id < bound && id in db.tasks && db.tasks[id].run == run && RowOf(db, id) == row)
  }

  lemma RowsExtend(db: Db, run: RunId, id: TaskId, rows: seq<RunSummary.Row>)
    requires RowsCover(db, run, id, rows) && id in db.tasks && db.tasks[id].run == run
    ensures RowsCover(db, run, id + 1, rows + [RowOf(db, id)])
  {
    var more := rows + [RowOf(db, id)];
    assert forall row :: row in more <==> row in rows || row == RowOf(db, id);
  }

  function ObservedBy(db: Db, run: RunId): set<ItemKey> {
    set k | k in db.observations && k.task in db.tasks && db.tasks[k.task].run == run
  }

  function LimitsOf(db: Db, run: RunId): set<LimitEvent> {
    set e | e in db.limits && e.run == run
  }

  /** The counters of the summary decide what FinalStatus says about the rows themselves. */
  lemma FinalStatusFromRows(db: Db, run: RunId, rows: seq<RunSummary.Row>)
    requires RowsCover(db, run, db.nextTask, rows) && IdsInUse(db)
    ensures FinalStatus(db, run) ==
              if RunSummary.HasWorkflow(rows)
                  then RunSummary.Verdict(RunSummary.Sum(rows), |ObservedBy(db, run)|, |LimitsOf(db, run)|)
              else RunSummary.Aggregate(RunSummary.Sum(rows).failed > 0, RunSummary.Sum(rows).cancelled > 0)
  {
    RunSummary.SumsCountRows(rows);
    StatusRows(db, run, rows, TaskCancelled);
    StatusRows(db, run, rows, TaskFailed);
    StatusRows(db, run, rows, TaskDeadLetter);
    CountedSets(db, run);
    WorkflowRows(db, run, rows);
    ProductiveRows(db, run, rows);
    LimitedRows(db, run, rows);
    hide HasStatus, HasResult, WasLimited, IsWorkflowRun, RunSummary.HasRow, RunSummary.Sum, RowsCover, IdsInUse;
  }

  lemma StatusRows(db: Db, run: RunId, rows: seq<RunSummary.Row>, s: TaskStatus)
    requires RowsCover(db, run, db.nextTask, rows) && IdsInUse(db)
    ensures HasStatus(db, run, s) <==> RunSummary.HasRow(rows, s)
  {
    if HasStatus(db, run, s) {
      var id :| id in db.tasks && db.tasks[id].run == run && db.tasks[id].status == s;
      assert RowOf(db, id) in rows;
    }
    if RunSummary.HasRow(rows, s) {
      var i :| 0 <= i < |rows| && rows[i].status == s;
      assert rows[i] in rows;
    }
  }

  lemma OpenRows(db: Db, run: RunId, rows: seq<RunSummary.Row>)
    requires RowsCover(db, run, db.nextTask, rows) && IdsInUse(db)
    ensures ActiveTasksOf(db, run) != {} <==>
              RunSummary.HasRow(rows, TaskQueued) || RunSummary.HasRow(rows, TaskRunning)
  {
    StatusRows(db, run, rows, TaskQueued);
    StatusRows(db, run, rows, TaskRunning);
    if ActiveTasksOf(db, run) != {} {
      var id :| id in ActiveTasksOf(db, run);
      assert HasStatus(db, run, db.tasks[id].status);
    }
    forall s | TaskActive(s) && HasStatus(db, run, s) ensures ActiveTasksOf(db, run) != {} {
      var id :| id in db.tasks && db.tasks[id].run == run && db.tasks[id].status == s;
      assert id in ActiveTasksOf(db, run);
    }
  }

  lemma WorkflowRows(db: Db, run: RunId, rows: seq<RunSummary.Row>)
    requires RowsCover(db, run, db.nextTask, rows) && IdsInUse(db)
    ensures IsWorkflowRun(db, run) <==> RunSummary.HasWorkflow(rows)
  {
    if id :| id in db.tasks && db.tasks[id].run == run && db.tasks[id].kind == Workflow {
      assert RowOf(db, id) in rows;
    }
    if i :| 0 <= i < |rows| && rows[i].kind == Workflow {
      assert rows[i] in rows;
    }
  }

  lemma CountedSets(db: Db, run: RunId)
    ensures Observed(db, run) <==> |ObservedBy(db, run)| > 0
    ensures HasLimitEvent(db, run) <==> |LimitsOf(db, run)| > 0
  {
    if Observed(db, run) {
      var k :| k in db.observations && k.task in db.tasks && db.tasks[k.task].run == run;
      assert k in ObservedBy(db, run);
    }
    if |ObservedBy(db, run)| > 0 {
      var k :| k in ObservedBy(db, run);
    }
    if e :| e in db.limits && e.run == run {
      assert e in LimitsOf(db, run);
    }
    if |LimitsOf(db, run)| > 0 {
      var e :| e in LimitsOf(db, run);
    }
  }

  lemma ProductiveRows(db: Db, run: RunId, rows: seq<RunSummary.Row>)
    requires RowsCover(db, run, db.nextTask, rows) && IdsInUse(db)
    ensures ProducedAny(db, run) <==> RunSummary.AnyProductive(rows)
  {
    if id :| id in db.tasks && db.tasks[id].run == run && Produced(db, id) {
      assert RowOf(db, id) in rows;
      var i :| 0 <= i < |rows| && rows[i] == RowOf(db, id);
      assert RunSummary.ProductiveRow(rows[i]);
    }
    if i :| 0 <= i < |rows| && RunSummary.ProductiveRow(rows[i]) {
      assert rows[i] in rows;
      var id :| id < db.nextTask && id in db.tasks && db.tasks[id].run == run && RowOf(db, id) == rows[i];
      assert Produced(db, id);
    }
  }

  lemma LimitedRows(db: Db, run: RunId, rows: seq<RunSummary.Row>)
    requires RowsCover(db, run, db.nextTask, rows) && IdsInUse(db)
    ensures CutShortAny(db, run) <==> RunSummary.AnyLimited(rows)
  {
    if id :| id in db.tasks && db.tasks[id].run == run && CutShort(db, id) {
      assert RowOf(db, id) in rows;
      var i :| 0 <= i < |rows| && rows[i] == RowOf(db, id);
      assert RunSummary.LimitedRow(rows[i]);
    }
    if i :| 0 <= i < |rows| && RunSummary.LimitedRow(rows[i]) {
      assert rows[i] in rows;
      var id :| id < db.nextTask && id in db.tasks && db.tasks[id].run == run && RowOf(db, id) == rows[i];
      assert CutShort(db, id);
    }
  }

  /** The delay before a retry: doubled with each attempt, from two seconds up to 256. */
  function BackoffBase(attempt: int): nat {
    var k := if attempt < 1 then 1 else if attempt > 8 then 8 else attempt;
    [0, 2, 4, 8, 16, 32, 64, 128, 256][k]
  }

  /** A random part of up to half the delay comes on top. */
  function BackoffDelay(attempt: int, random: nat): nat {
    BackoffBase(attempt) + random % (BackoffBase(attempt) / 2 + 1)
  }
}
