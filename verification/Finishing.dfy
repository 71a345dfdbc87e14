/**
 How runs end.  A run ends only when all of its tasks have, its verdict is final unless a failed task is
 retried, and without crashes somebody always still has to look at a run whose tasks are all done.
 */
module Finishing {
  import opened Common
  import opened CrawlPolicy
  import opened TaskModel
  import opened TaskSystem
  import opened Ownership
  import opened Protocol

  // ----- The verdict --------------------------------------------------------------------------

  /** A finished run has ended, and no finishing transaction ends a run with an open task. */
  lemma FinishEndsOnlyQuietRuns(db: Db, id: TaskId)
    requires id in db.tasks && RunIsActive(db, db.tasks[id].run)
    ensures var n := TryFinishRun(db, id);
            RunIsActive(n, db.tasks[id].run) <==> ActiveTasksOf(db, db.tasks[id].run) != {}
  {
  }

  /** Records written before a worker died still count: an observed, uncancelled run is never a failure. */
  lemma ObservedRunIsNoFailure(db: Db, run: RunId)
    requires IsWorkflowRun(db, run) && Observed(db, run)
    ensures FinalStatus(db, run) != RunFailed
    ensures FinalStatus(db, run) == RunSucceeded <==>
              !WasLimited(db, run) && forall id :: id in db.tasks && db.tasks[id].run == run ==>
                db.tasks[id].status !in {TaskCancelled, TaskFailed, TaskDeadLetter}
  {
    assert HasStatus(db, run, TaskCancelled) || HasFailure(db, run) <==>
           exists id :: id in db.tasks && db.tasks[id].run == run && db.tasks[id].status in {TaskCancelled, TaskFailed,
                     TaskDeadLetter};
  }

  predicate Settled(status: RunStatus) {
    status == RunSucceeded || status == RunLimited || status == RunCancelled
  }

  /** Succeeded, limited and cancelled runs never change their status again; a failed one only by a retry. */
  lemma {:induction false} SettledRunsStaySettled(s: Sys, acts: seq<Action>, run: RunId)
    requires Inv(s) && run in s.db.runs && Settled(s.db.runs[run].status)
    ensures run in Exec(s, acts).db.runs && Exec(s, acts).db.runs[run].status == s.db.runs[run].status
    decreases |acts|
  {
    if acts != [] {
      SettledRunsStaySettled(s, acts[..|acts| - 1], run);
      InvAlways(s, acts[..|acts| - 1]);
      StepKeepsInv(Exec(s, acts[..|acts| - 1]), acts[|acts| - 1]);
    }
  }

  /** A run that has ended has no queued or running task, in every state of every run of the system. */
  lemma EndedRunsAreQuiet(acts: seq<Action>, run: RunId)
    ensures var db := Exec(Init(), acts).db;
            run in db.runs && !RunActive(db.runs[run].status) ==> ActiveTasksOf(db, run) == {}
  {
    InvInitially();
    InvAlways(Init(), acts);
  }

  // ----- No finish is lost ----------------------------------------------------------------------

  ghost predicate WillFinish(s: Sys, p: ProcId, run: RunId) {
    At(s, p).Finishing? && At(s, p).task in s.db.tasks && s.db.tasks[At(s, p).task].run == run
  }

  /** An active run with tasks has an open one, or a process that still has to try to finish it. */
  ghost predicate Attended(s: Sys, run: RunId) {
    RunIsActive(s.db, run) && TasksOf(s.db, run) != {} ==>
      ActiveTasksOf(s.db, run) != {} || exists p :: WillFinish(s, p, run)
  }

  /** The only process that still has to look at a run all of whose tasks have ended. */
  ghost predicate LastFinisher(s: Sys, p: ProcId, run: RunId) {
    && WillFinish(s, p, run) && RunIsActive(s.db, run) && ActiveTasksOf(s.db, run) == {}
    && forall q :: q != p ==> !WillFinish(s, q, run)
  }

  ghost predicate LosesFinish(s: Sys, a: Action, run: RunId) {
    a.Crash? && LastFinisher(s, a.p, run)
  }

  /** A finisher keeps its duty until it performs it. */
  lemma FinisherRemains(s: Sys, a: Action, p: ProcId, run: RunId)
    requires Inv(s) && WillFinish(s, p, run) && !a.Crash? && !(a.Finish? && a.p == p)
    ensures WillFinish(Next(s, a), p, run)
  {
    hide Next, Inv, DbMove;
    var id := At(s, p).task;
    StepKeepsInv(s, a);
    PlaceKept(s.db, Next(s, a).db, FootprintOf(s, a), id);
    DutyRemains(s, a, p);
  }

  lemma DutyRemains(s: Sys, a: Action, p: ProcId)
    requires At(s, p).Finishing? && !a.Crash? && !(a.Finish? && a.p == p)
    ensures At(Next(s, a), p) == At(s, p)
  {
  }

  /** Performing the duty ends the run, unless a task is open. */
  lemma FinishAttends(s: Sys, p: ProcId, run: RunId)
    requires Inv(s) && At(s, p).Finishing? && Attended(s, run)
    ensures Attended(Next(s, Finish(p)), run)
  {
    hide Next, Inv;
    var n := Next(s, Finish(p));
    FinishOf(s, p, run);
    if RunIsActive(n.db, run) && ActiveTasksOf(s.db, run) == {} && TasksOf(s.db, run) != {} {
      var q :| WillFinish(s, q, run);
      DutyRemains(s, Finish(p), q);
      assert WillFinish(n, q, run);
    }
  }

  lemma FinishOf(s: Sys, p: ProcId, run: RunId)
    requires Inv(s) && At(s, p).Finishing?
    ensures var n := Next(s, Finish(p)).db;
            && ActiveTasksOf(n, run) == ActiveTasksOf(s.db, run) && TasksOf(n, run) == TasksOf(s.db, run)
            && (RunIsActive(n, run) ==> RunIsActive(s.db, run))
            && (RunIsActive(n, run) && ActiveTasksOf(s.db, run) == {} ==> !WillFinish(s, p, run))
            && n.tasks == s.db.tasks
  {
    VerdictIsFinal(s.db, run);
    hide FinalStatus, Inv;
  }

  lemma VerdictIsFinal(db: Db, run: RunId)
    ensures !RunActive(FinalStatus(db, run))
  {
    hide HasStatus, HasResult, WasLimited, HasFailure, IsWorkflowRun;
  }

  /** A step that closes the last open task of a run which stays active leaves its actor in charge. */
  lemma CloserTakesCharge(s: Sys, a: Action, t: TaskId)
    requires Inv(s) && t in s.db.tasks && TaskActive(s.db.tasks[t].status)
    requires t in Next(s, a).db.tasks && !TaskActive(Next(s, a).db.tasks[t].status)
    requires Next(s, a).db.tasks[t].run == s.db.tasks[t].run
    requires RunIsActive(Next(s, a).db, s.db.tasks[t].run)
    ensures exists p :: WillFinish(Next(s, a), p, s.db.tasks[t].run)
  {
    hide Next, Inv, RunIsActive, WillFinish;
    if a.ReadForComplete? || a.ReadTaskForFail? || a.ReadAttemptForFail? || a.ReadForRetry? || a.Crash? {
      ReadingChangesNothing(s, a);
    } else if a.CancelTask? {
      CancelTakesCharge(s, a, t);
    } else if a.ExpireRun? || a.CancelRun? {
      ExpiryTakesCharge(s, a, t);
    } else if a.CommitComplete? || a.CommitFail? || a.RecoverTask? {
      SingleTakesCharge(s, a, t);
    } else {
      OthersCloseNothing(s, a, t);
    }
  }

  lemma InvRefersToRows(s: Sys)
    requires Inv(s)
    ensures Referenced(s.db)
  {
  }

  /** The transactions that end one task close no other. */
  lemma EndingClosesOne(db: Db, c: Claim, output: Output, status: TaskStatus, willRetry: bool, retryAt: Time,
                        id: TaskId, t: TaskId)
    requires t in db.tasks
    ensures var n := TaskModel.CommitComplete(db, c, output, status);
            t in n.db.tasks && (n.db.tasks[t].status != db.tasks[t].status ==> n.reply && t == c.task)
    ensures var n := TaskModel.CommitFail(db, c, willRetry, retryAt);
            t in n.db.tasks && (n.db.tasks[t].status != db.tasks[t].status ==>
              n.reply && t == c.task && (willRetry ==> n.db.tasks[t].status == TaskQueued))
    ensures var n := TaskModel.RecoverTask(db, id);
            t in n.db.tasks && (n.db.tasks[t].status != db.tasks[t].status ==> n.reply && t == id)
  {
  }

  lemma SingleTakesCharge(s: Sys, a: Action, t: TaskId)
    requires t in s.db.tasks && TaskActive(s.db.tasks[t].status)
    requires t in Next(s, a).db.tasks && !TaskActive(Next(s, a).db.tasks[t].status)
    requires Next(s, a).db.tasks[t].run == s.db.tasks[t].run
    requires a.CommitComplete? || a.CommitFail? || a.RecoverTask?
    ensures WillFinish(Next(s, a), a.p, s.db.tasks[t].run)
  {
    hide TaskModel.CommitComplete, TaskModel.CommitFail, TaskModel.RecoverTask;
    var pc := At(s, a.p);
    if a.CommitComplete? {
      if pc.Completing? { EndingClosesOne(s.db, pc.claim, pc.output, pc.status, true, 0, 0, t); }
    } else if a.CommitFail? {
      if pc.Failing? { EndingClosesOne(s.db, pc.claim, NoOutput, TaskSucceeded, WillRetry(pc), a.retryAt, 0, t); }
    } else {
      EndingClosesOne(s.db, Claim(t, "", 0), NoOutput, TaskSucceeded, true, 0, a.id, t);
    }
  }

  lemma {:induction false} SubtreeSharesRun(db: Db, root: TaskId, t: TaskId)
    requires Referenced(db) && root in db.tasks
    ensures Under(db, root, t) ==> db.tasks[t].run == db.tasks[root].run
    decreases t
  {
    if t in db.tasks && t != root && db.tasks[t].parent.Some? && db.tasks[t].parent.value < t {
      SubtreeSharesRun(db, root, db.tasks[t].parent.value);
    }
  }

  lemma CancelClosesSubtree(db: Db, id: TaskId, t: TaskId)
    requires t in db.tasks
    ensures var r := TaskModel.CancelTask(db, id);
            && t in r.db.tasks && r.db.tasks[t].run == db.tasks[t].run
            && (id in db.tasks ==> id in r.db.tasks && r.db.tasks[id].run == db.tasks[id].run)
            && (r.db.tasks[t].status != db.tasks[t].status ==>
                  r.reply == Cancelled && id in db.tasks && Under(db, id, t))
  {
  }

  lemma CancelTakesCharge(s: Sys, a: Action, t: TaskId)
    requires Inv(s) && a.CancelTask? && t in s.db.tasks && TaskActive(s.db.tasks[t].status)
    requires t in Next(s, a).db.tasks && !TaskActive(Next(s, a).db.tasks[t].status)
    ensures WillFinish(Next(s, a), a.p, s.db.tasks[t].run)
  {
    InvRefersToRows(s);
    hide Inv;
    if a.id in s.db.tasks {
      SubtreeSharesRun(s.db, a.id, t);
    }
    CancelClosesSubtree(s.db, a.id, t);
    CancelActs(s, a.p, a.id);
    hide Next, TaskModel.CancelTask, Under;
  }

  lemma CancelActs(s: Sys, p: ProcId, id: TaskId)
    ensures var r := TaskModel.CancelTask(s.db, id);
            Next(s, Action.CancelTask(p, id))
            == if At(s, p).Idle? && r.reply == Cancelled then Goto(s.(db := r.db), p, Finishing(id)) else s
  {
    hide TaskModel.CancelTask;
  }

  /** Ending a whole run: after expiry of an active run only its own tasks are closed. */
  lemma RunEndCloses(db: Db, run: RunId, t: TaskId)
    requires t in db.tasks && TaskActive(db.tasks[t].status)
    ensures var n := TaskModel.ExpireRun(db, run);
            t in n.db.tasks && n.db.tasks[t].run == db.tasks[t].run
                && (n.db.tasks[t].status != db.tasks[t].status ==> n.reply && db.tasks[t].run == run)
    ensures var n := TaskModel.CancelRun(db, run);
            t in n.db.tasks && (n.db.tasks[t].status != db.tasks[t].status ==>
                                  n.reply && db.tasks[t].run == run && !RunIsActive(n.db, run))
  {
    hide CloseAttempts, ExpireEvents;
    if db.tasks[t].run == run {
      assert t in TasksOf(db, run) && t in ActiveTasksOf(db, run);
    } else {
      assert t !in TasksOf(db, run);
    }
  }

  lemma ExpiryStep(s: Sys, p: ProcId, run: RunId, first: TaskId)
    requires At(s, p).Idle?
    ensures var e, n := TaskModel.ExpireRun(s.db, run), Next(s, Action.ExpireRun(p, run, first));
            && (e.reply && first in ActiveTasksOf(s.db, run) ==> n == Goto(s.(db := e.db), p, Finishing(first)))
            && (e.reply && first !in ActiveTasksOf(s.db, run) ==> n == s)
            && (!e.reply ==> n == s.(db := e.db))
  {
    hide TaskModel.ExpireRun;
  }

  lemma BusyExpiresNothing(s: Sys, p: ProcId, run: RunId, first: TaskId)
    requires !At(s, p).Idle?
    ensures Next(s, Action.ExpireRun(p, run, first)) == s
  {
  }

  lemma CancelRunStep(s: Sys, run: RunId)
    ensures Next(s, Action.CancelRun(run)).db == TaskModel.CancelRun(s.db, run).db
  {
    hide TaskModel.CancelRun;
  }

  lemma ExpiryTakesCharge(s: Sys, a: Action, t: TaskId)
    requires (a.ExpireRun? || a.CancelRun?) && t in s.db.tasks && TaskActive(s.db.tasks[t].status)
    requires t in Next(s, a).db.tasks && !TaskActive(Next(s, a).db.tasks[t].status)
    requires RunIsActive(Next(s, a).db, s.db.tasks[t].run)
    ensures a.ExpireRun? && WillFinish(Next(s, a), a.p, s.db.tasks[t].run)
  {
    hide Next, TaskModel.ExpireRun, TaskModel.CancelRun;
    RunEndCloses(s.db, a.run, t);
    if a.CancelRun? {
      CancelRunStep(s, a.run);
    } else if At(s, a.p).Idle? {
      ExpiryStep(s, a.p, a.run, a.first);
      if a.first in ActiveTasksOf(s.db, a.run) {
        RunEndCloses(s.db, a.run, a.first);
      }
    } else {
      BusyExpiresNothing(s, a.p, a.run, a.first);
    }
  }

  lemma KeptCloseNothing(o: Db, n: Db, t: TaskId)
    requires OnlyKept(o, n) && t in o.tasks
    ensures t in n.tasks && n.tasks[t].status == o.tasks[t].status
  {
  }

  lemma OthersCloseNothing(s: Sys, a: Action, t: TaskId)
    requires Inv(s) && t in s.db.tasks && TaskActive(s.db.tasks[t].status)
    requires !(a.CommitComplete? || a.CommitFail? || a.RecoverTask? || a.CancelTask? || a.CancelRun? || a.ExpireRun?)
    requires !(a.ReadForComplete? || a.ReadTaskForFail? || a.ReadAttemptForFail? || a.ReadForRetry? || a.Crash?)
    ensures t in Next(s, a).db.tasks && TaskActive(Next(s, a).db.tasks[t].status)
  {
    hide Next, Inv;
    InvImpliesOrder(s);
    if a.ReservePage? || a.CheckPageUrl? || a.SaveDocument? || a.SaveRecords? || a.CreateChild? {
      WorkerClosesNothing(s, a, t);
    } else if a.StartRun? || a.RerunRun? || a.RenewLease? || a.Finish? {
      OwnerClosesNothing(s, a, t);
    } else {
      PassingClosesNothing(s, a, t);
    }
  }

  lemma PassingClosesNothing(s: Sys, a: Action, t: TaskId)
    requires t in s.db.tasks && TaskActive(s.db.tasks[t].status)
    requires a.Tick? || a.ClaimTask? || a.RecordLimit? || a.CommitRetry?
    ensures t in Next(s, a).db.tasks && TaskActive(Next(s, a).db.tasks[t].status)
  {
    hide CloseAttempts;
  }

  lemma OwnerClosesNothing(s: Sys, a: Action, t: TaskId)
    requires IdsFresh(s.db) && t in s.db.tasks && TaskActive(s.db.tasks[t].status)
    requires a.StartRun? || a.RerunRun? || a.RenewLease? || a.Finish?
    ensures t in Next(s, a).db.tasks && TaskActive(Next(s, a).db.tasks[t].status)
  {
    hide OnlyKept, DbMove, TaskModel.StartRun, TaskModel.RerunRun, TaskModel.RenewLease, TryFinishRun;
    match a
    case StartRun(budget, input) =>
      StartMoves(s.db, budget, input);
      KeptCloseNothing(s.db, TaskModel.StartRun(s.db, Some(budget), input).db, t);
    case RerunRun(run) => RerunMoves(s.db, run); KeptCloseNothing(s.db, TaskModel.RerunRun(s.db, run).db, t);
    case RenewLease(c, lease) =>
      RenewMoves(s.db, c, lease);
      KeptCloseNothing(s.db, TaskModel.RenewLease(s.db, c, lease).db, t);
    case Finish(p) => if At(s, p).Finishing? { FinishMoves(s.db, At(s, p).task); }
  }

  lemma WorkerClosesNothing(s: Sys, a: Action, t: TaskId)
    requires IdsFresh(s.db) && t in s.db.tasks && TaskActive(s.db.tasks[t].status)
    requires a.ReservePage? || a.CheckPageUrl? || a.SaveDocument? || a.SaveRecords? || a.CreateChild?
    ensures t in Next(s, a).db.tasks && TaskActive(Next(s, a).db.tasks[t].status)
  {
    hide OnlyKept, DbMove, TaskModel.CreateChild, TaskModel.ReservePage, TaskModel.CheckPageUrl, TaskModel.SaveDocument,
        TaskModel.SaveRecords;
    match a
    case CreateChild(c, step, input) =>
      CreateChildMoves(s.db, c, step, input);
      KeptCloseNothing(s.db, TaskModel.CreateChild(s.db, c, step, input).db, t);
    case ReservePage(c, url) =>
      ReservePageMoves(s.db, c, url);
      KeptCloseNothing(s.db, TaskModel.ReservePage(s.db, c, url).db, t);
    case CheckPageUrl(c, url) =>
      CheckPageMoves(s.db, c, url);
      KeptCloseNothing(s.db, TaskModel.CheckPageUrl(s.db, c, url).db, t);
    case SaveDocument(c, document) =>
      DocumentMoves(s.db, c, document);
      KeptCloseNothing(s.db, TaskModel.SaveDocument(s.db, c, document).db, t);
    case SaveRecords(c, decisions) =>
      RecordsMoves(s.db, c, decisions);
      KeptCloseNothing(s.db, TaskModel.SaveRecords(s.db, c, decisions).db, t);
  }

  /** A run that gets its first task gets an open one. */
  lemma FirstTaskIsOpen(o: Db, n: Db, f: Footprint, run: RunId)
    requires DbMove(o, n, f) && TasksOf(o, run) == {} && TasksOf(n, run) != {}
    ensures ActiveTasksOf(n, run) != {}
  {
    forall t | t in o.tasks ensures t in n.tasks && n.tasks[t].run == o.tasks[t].run {
      PlaceKept(o, n, f, t);
    }
    var t :| t in TasksOf(n, run);
    assert t in o.tasks ==> t in TasksOf(o, run);
    assert t in ActiveTasksOf(n, run);
  }

  /** An ended run only becomes active again by a retry, which queues a task. */
  lemma ReactivationQueues(s: Sys, a: Action, run: RunId)
    requires Inv(s) && run in s.db.runs && !RunIsActive(s.db, run) && RunIsActive(Next(s, a).db, run)
    ensures ActiveTasksOf(Next(s, a).db, run) != {}
  {
    if a.CommitRetry? {
      var id := At(s, a.p).task;
      assert id in ActiveTasksOf(Next(s, a).db, run);
    } else {
      OnlyRetryReactivates(s, a, run);
      assert false;
    }
  }

  lemma OnlyRetryReactivates(s: Sys, a: Action, run: RunId)
    requires run in s.db.runs && !RunIsActive(s.db, run) && !a.CommitRetry? && s.db.nextRun !in s.db.runs
    ensures !RunIsActive(Next(s, a).db, run)
  {
    hide Next;
    if a.CreateChild? || a.ReservePage? || a.CheckPageUrl? {
      WorkerReactivatesNothing(s, a, run);
    } else {
      OthersReactivateNothing(s, a, run);
    }
  }

  lemma WorkerReactivatesNothing(s: Sys, a: Action, run: RunId)
    requires run in s.db.runs && !RunIsActive(s.db, run) && (a.CreateChild? || a.ReservePage? || a.CheckPageUrl?)
    ensures !RunIsActive(Next(s, a).db, run)
  {
    hide TaskModel.CreateChild, TaskModel.ReservePage, TaskModel.CheckPageUrl;
    match a
    case CreateChild(c, step, input) => CreateChildShape(s.db, c, step, input);
    case ReservePage(c, url) => ReservePageMoves(s.db, c, url);
    case CheckPageUrl(c, url) => CheckPageMoves(s.db, c, url);
  }

  lemma OthersReactivateNothing(s: Sys, a: Action, run: RunId)
    requires run in s.db.runs && !RunIsActive(s.db, run) && s.db.nextRun !in s.db.runs
    requires !(a.CreateChild? || a.ReservePage? || a.CheckPageUrl? || a.CommitRetry?)
    ensures !RunIsActive(Next(s, a).db, run)
  {
    hide FinalStatus, Subtree, CloseTasks, CloseAttempts;
  }

  lemma LastCloserAttends(s: Sys, a: Action, run: RunId)
    requires Inv(s) && RunIsActive(Next(s, a).db, run)
    requires ActiveTasksOf(s.db, run) != {} && ActiveTasksOf(Next(s, a).db, run) == {}
    ensures exists p :: WillFinish(Next(s, a), p, run)
  {
    hide Next, Inv, DbMove;
    StepKeepsInv(s, a);
    var t :| t in ActiveTasksOf(s.db, run);
    PlaceKept(s.db, Next(s, a).db, FootprintOf(s, a), t);
    assert t !in ActiveTasksOf(Next(s, a).db, run);
    CloserTakesCharge(s, a, t);
  }

  lemma FinisherAttends(s: Sys, a: Action, run: RunId)
    requires Inv(s) && Attended(s, run) && !a.Crash? && !(a.Finish? && At(s, a.p).Finishing?)
    requires RunIsActive(s.db, run) && TasksOf(s.db, run) != {} && ActiveTasksOf(s.db, run) == {}
    ensures exists p :: WillFinish(Next(s, a), p, run)
  {
    hide Next, Inv;
    var p :| WillFinish(s, p, run);
    FinisherRemains(s, a, p, run);
  }

  lemma NewlyActiveIsOpen(s: Sys, a: Action, run: RunId)
    requires Inv(s) && RunIsActive(Next(s, a).db, run) && TasksOf(Next(s, a).db, run) != {}
    requires TasksOf(s.db, run) == {} || !RunIsActive(s.db, run)
    ensures ActiveTasksOf(Next(s, a).db, run) != {}
  {
    StepKeepsInv(s, a);
    if TasksOf(s.db, run) == {} {
      FirstTaskIsOpen(s.db, Next(s, a).db, FootprintOf(s, a), run);
    } else {
      var t :| t in TasksOf(s.db, run);
      TaskHasRun(s, t);
      ReactivationQueues(s, a, run);
    }
  }

  lemma TaskHasRun(s: Sys, t: TaskId)
    requires Inv(s) && t in s.db.tasks
    ensures s.db.tasks[t].run in s.db.runs
  {
  }

  lemma StepAttends(s: Sys, a: Action, run: RunId)
    requires Inv(s) && Attended(s, run) && !a.Crash?
    ensures Attended(Next(s, a), run)
  {
    hide Next, Inv;
    if a.Finish? && At(s, a.p).Finishing? {
      FinishAttends(s, a.p, run);
    } else if RunIsActive(Next(s, a).db, run) && TasksOf(Next(s, a).db, run) != {}
              && ActiveTasksOf(Next(s, a).db, run) == {} {
      if TasksOf(s.db, run) == {} || !RunIsActive(s.db, run) {
        NewlyActiveIsOpen(s, a, run);
      } else if ActiveTasksOf(s.db, run) != {} {
        LastCloserAttends(s, a, run);
      } else {
        FinisherAttends(s, a, run);
      }
    }
  }

  /** A crash changes no row and takes the duty of its own process only. */
  lemma CrashAttendsIff(s: Sys, p: ProcId, run: RunId)
    requires Attended(s, run)
    ensures Attended(Next(s, Crash(p)), run) <==> !LosesFinish(s, Crash(p), run)
  {
    var n := Next(s, Crash(p));
    assert n.db == s.db && At(n, p).Idle?;
    forall q ensures q != p ==> At(n, q) == At(s, q) {
    }
    if RunIsActive(s.db, run) && TasksOf(s.db, run) != {} && ActiveTasksOf(s.db, run) == {} {
      var q :| WillFinish(s, q, run);
      if r :| r != p && WillFinish(s, r, run) {
        assert WillFinish(n, r, run);
      } else {
        assert q == p && LastFinisher(s, p, run);
        forall r ensures !WillFinish(n, r, run) {
          assert r != p ==> !WillFinish(s, r, run);
        }
      }
    } else if WillFinish(s, p, run) {
      assert At(s, p).task in TasksOf(s.db, run);
    }
  }

  /** A step loses the finish of a run exactly if it is the crash of its last finisher. */
  lemma StepAttendsIff(s: Sys, a: Action, run: RunId)
    requires Inv(s) && Attended(s, run)
    ensures Attended(Next(s, a), run) <==> !LosesFinish(s, a, run)
  {
    hide Next, Inv;
    if a.Crash? {
      CrashAttendsIff(s, a.p, run);
    } else {
      StepAttends(s, a, run);
    }
  }

  ghost predicate AlwaysAttended(acts: seq<Action>, run: RunId) {
    forall k :: 0 <= k <= |acts| ==> Attended(Exec(Init(), acts[..k]), run)
  }

  ghost predicate NeverLosesFinish(acts: seq<Action>, run: RunId) {
    forall k :: 0 <= k < |acts| ==> !LosesFinish(Exec(Init(), acts[..k]), acts[k], run)
  }

  lemma AttendedSoFar(acts: seq<Action>, run: RunId)
    requires acts != []
    ensures AlwaysAttended(acts, run) <==> AlwaysAttended(acts[..|acts| - 1], run) && Attended(Exec(Init(), acts), run)
  {
    hide Exec, Attended;
    FrontPrefixes(acts);
    var front := acts[..|acts| - 1];
    if AlwaysAttended(acts, run) {
      forall k | 0 <= k <= |front| ensures Attended(Exec(Init(), front[..k]), run) {
        assert front[..k] == acts[..k];
      }
    }
  }

  lemma KeptSoFar(acts: seq<Action>, run: RunId)
    requires acts != []
    ensures NeverLosesFinish(acts, run) <==>
              && NeverLosesFinish(acts[..|acts| - 1], run)
              && !LosesFinish(Exec(Init(), acts[..|acts| - 1]), acts[|acts| - 1], run)
  {
    hide Exec, LosesFinish;
    FrontPrefixes(acts);
    var front := acts[..|acts| - 1];
    if NeverLosesFinish(acts, run) {
      forall k | 0 <= k < |front| ensures !LosesFinish(Exec(Init(), front[..k]), front[k], run) {
        assert front[..k] == acts[..k];
      }
    }
  }

  /**
   In every run of the system an active run whose tasks have all ended has, at every moment, a process that
   will still try to finish it, exactly if the last such process never crashes.
   */
  lemma {:induction false} NoFinishIsLost(acts: seq<Action>, run: RunId)
    ensures AlwaysAttended(acts, run) <==> NeverLosesFinish(acts, run)
    decreases |acts|
  {
    hide Next, Inv, Attended, LosesFinish;
    if acts == [] {
      NothingToAttend(run);
    } else {
      var front := acts[..|acts| - 1];
      NoFinishIsLost(front, run);
      AttendedSoFar(acts, run);
      KeptSoFar(acts, run);
      InvInitially();
      InvAlways(Init(), front);
      if AlwaysAttended(front, run) {
        assert front[..|front|] == front;
        StepAttendsIff(Exec(Init(), front), acts[|acts| - 1], run);
      }
    }
  }

  lemma NothingToAttend(run: RunId)
    ensures AlwaysAttended([], run) && NeverLosesFinish([], run)
  {
  }

  // ----- What a crash costs ------------------------------------------------------------------------

  /** An active run whose tasks have all ended and which nobody is about to finish. */
  ghost predicate Stranded(s: Sys, run: RunId) {
    && RunIsActive(s.db, run) && TasksOf(s.db, run) != {} && ActiveTasksOf(s.db, run) == {}
    && (forall p :: !WillFinish(s, p, run))
  }

  /** What a user can still do about it: cancel the run, or get a retry of one of its failed tasks to commit. */
  predicate Rescues(s: Sys, a: Action, run: RunId) {
    (a.CancelRun? && a.run == run) || RetriesRun(s, a, run)
  }

  /** How a run gets there: the last process that owed it a look dies. */
  lemma CrashStrands(s: Sys, p: ProcId, run: RunId)
    requires RunIsActive(s.db, run) && TasksOf(s.db, run) != {} && ActiveTasksOf(s.db, run) == {}
    requires forall q :: q != p ==> !WillFinish(s, q, run)
    ensures Stranded(Next(s, Crash(p)), run)
  {
    var n := Next(s, Crash(p));
    assert n.db == s.db && At(n, p).Idle?;
    forall q ensures q == p || At(n, q) == At(s, q) {
    }
    forall q ensures !WillFinish(n, q, run) {
      assert q != p ==> !WillFinish(s, q, run);
    }
  }

  /** Taking charge of a run means closing one of its open tasks. */
  lemma DutyHasOrigin(s: Sys, a: Action, run: RunId, p: ProcId)
    requires Inv(s)
    ensures WillFinish(Next(s, a), p, run) ==> WillFinish(s, p, run) || ActiveTasksOf(s.db, run) != {}
  {
    hide Next, Inv, DbMove;
    if WillFinish(Next(s, a), p, run) {
      StepKeepsInv(s, a);
      var id := At(Next(s, a), p).task;
      DutyIsGrounded(s, a, p);
      PlaceKept(s.db, Next(s, a).db, FootprintOf(s, a), id);
      if At(Next(s, a), p) != At(s, p) {
        NewDutyHasOpenTask(s, a, p);
        assert id in ActiveTasksOf(s.db, run);
      }
    }
  }

  lemma DutyIsGrounded(s: Sys, a: Action, p: ProcId)
    requires Inv(s) && At(Next(s, a), p).Finishing?
    ensures At(Next(s, a), p).task in s.db.tasks
  {
    hide Next;
    if At(Next(s, a), p) != At(s, p) {
      NewDutyHasOpenTask(s, a, p);
    } else {
      assert PcGrounded(s.db, At(s, p));
    }
  }

  lemma NewDutyHasOpenTask(s: Sys, a: Action, p: ProcId)
    requires At(Next(s, a), p) != At(s, p) && At(Next(s, a), p).Finishing?
    ensures At(Next(s, a), p).task in s.db.tasks && TaskActive(s.db.tasks[At(Next(s, a), p).task].status)
  {
    hide Next;
    if a.CommitComplete? || a.CommitFail? || a.RecoverTask? {
      EnderHadOpenTask(s, a, p);
    } else if a.CancelTask? {
      CancelActs(s, a.p, a.id);
      CancelledWasOpen(s.db, a.id);
    } else {
      ExpirerHadOpenTask(s, a, p);
    }
  }

  lemma EnderHadOpenTask(s: Sys, a: Action, p: ProcId)
    requires At(Next(s, a), p) != At(s, p) && At(Next(s, a), p).Finishing?
    requires a.CommitComplete? || a.CommitFail? || a.RecoverTask?
    ensures At(Next(s, a), p).task in s.db.tasks && TaskActive(s.db.tasks[At(Next(s, a), p).task].status)
  {
    hide CloseAttempts, AttemptLooksActive, LeaseExpired;
  }

  lemma CancelledWasOpen(db: Db, id: TaskId)
    requires TaskModel.CancelTask(db, id).reply == Cancelled
    ensures id in db.tasks && TaskActive(db.tasks[id].status)
  {
  }

  lemma ExpirerHadOpenTask(s: Sys, a: Action, p: ProcId)
    requires At(Next(s, a), p) != At(s, p) && At(Next(s, a), p).Finishing?
    requires !(a.CommitComplete? || a.CommitFail? || a.RecoverTask? || a.CancelTask?)
    ensures a.ExpireRun? && At(Next(s, a), p).task in ActiveTasksOf(s.db, a.run)
  {
    hide TaskModel.ExpireRun, TaskModel.CreateChild, TaskModel.ReservePage, TaskModel.CheckPageUrl, TryFinishRun;
  }

  /** Only a cancel or a finish ends an active run. */
  lemma RunStaysActive(s: Sys, a: Action, run: RunId)
    requires RunIsActive(s.db, run) && s.db.nextRun !in s.db.runs
    requires !a.CreateChild? && !a.Finish? && !(a.CancelRun? && a.run == run)
    ensures RunIsActive(Next(s, a).db, run)
  {
    hide Next;
    if a.ReadForComplete? || a.ReadTaskForFail? || a.ReadAttemptForFail? || a.ReadForRetry? || a.Crash? {
      ReadingChangesNothing(s, a);
    } else if a.CommitComplete? || a.CommitFail? || a.RecoverTask? || a.CancelTask? || a.ExpireRun? || a.CommitRetry? {
      EndingLeavesRunActive(s, a, run);
    } else {
      OtherLeavesRunActive(s, a, run);
    }
  }

  lemma EndingLeavesRunActive(s: Sys, a: Action, run: RunId)
    requires RunIsActive(s.db, run)
    requires a.CommitComplete? || a.CommitFail? || a.RecoverTask? || a.CancelTask? || a.ExpireRun? || a.CommitRetry?
    ensures RunIsActive(Next(s, a).db, run)
  {
  }

  lemma OtherLeavesRunActive(s: Sys, a: Action, run: RunId)
    requires RunIsActive(s.db, run) && s.db.nextRun !in s.db.runs && (a.CancelRun? ==> a.run != run)
    requires a.Tick? || a.StartRun? || a.RerunRun? || a.ClaimTask? || a.RenewLease? || a.ReservePage? || a.CheckPageUrl?
             || a.SaveDocument? || a.SaveRecords? || a.RecordLimit? || a.CancelRun?
    ensures RunIsActive(Next(s, a).db, run)
  {
    hide TaskModel.ReservePage, TaskModel.CheckPageUrl, CloseTasks, CloseAttempts, FindRoot, OnlyKept, DbMove, Observe;
    match a
    case ReservePage(c, url) => ReservePageMoves(s.db, c, url);
    case CheckPageUrl(c, url) => CheckPageMoves(s.db, c, url);
    case _ =>
  }

  lemma StrandedStaysActive(s: Sys, a: Action, run: RunId)
    requires Inv(s) && Stranded(s, run) && !Rescues(s, a, run)
    ensures RunIsActive(Next(s, a).db, run)
  {
    hide Next;
    if a.CreateChild? {
      ChildLeavesRunActive(s, a, run);
    } else if a.Finish? {
      assert !WillFinish(s, a.p, run);
      assert PcGrounded(s.db, At(s, a.p));
      FinishLeavesRunActive(s, a.p, run);
    } else {
      RunStaysActive(s, a, run);
    }
  }

  lemma ChildLeavesRunActive(s: Sys, a: Action, run: RunId)
    requires a.CreateChild? && RunIsActive(s.db, run)
    ensures RunIsActive(Next(s, a).db, run)
  {
    CreateChildShape(s.db, a.claim, a.step, a.input);
    hide TaskModel.CreateChild;
  }

  lemma FinishLeavesRunActive(s: Sys, p: ProcId, run: RunId)
    requires RunIsActive(s.db, run) && !WillFinish(s, p, run) && PcGrounded(s.db, At(s, p))
    ensures RunIsActive(Next(s, Finish(p)).db, run)
  {
    hide FinalStatus;
  }

  /** No new task: a child needs a running parent in the run. */
  lemma StrandedGetsNoTask(s: Sys, a: Action, run: RunId, t: TaskId)
    requires Inv(s) && Stranded(s, run) && t in Next(s, a).db.tasks && t !in s.db.tasks
    requires FootprintOf(s, a).inserts
    ensures Next(s, a).db.tasks[t].run != run
  {
    InvImpliesOrder(s);
    hide Next, Inv;
    if a.CreateChild? {
      ChildOfActiveTask(s, a.claim, a.step, a.input, t);
    } else {
      RootHasNoParent(s, a, t);
    }
  }

  lemma ChildOfActiveTask(s: Sys, c: Claim, step: string, input: TaskInput, t: TaskId)
    requires t in Next(s, Action.CreateChild(c, step, input)).db.tasks && t !in s.db.tasks
    ensures c.task in ActiveTasksOf(s.db, Next(s, Action.CreateChild(c, step, input)).db.tasks[t].run)
  {
    CreateChildShape(s.db, c, step, input);
    hide TaskModel.CreateChild;
  }

  lemma StrandedTasksStayEnded(s: Sys, a: Action, run: RunId, t: TaskId)
    requires Inv(s) && Stranded(s, run) && !RetriesRun(s, a, run)
    requires t in Next(s, a).db.tasks && Next(s, a).db.tasks[t].run == run
    ensures !TaskActive(Next(s, a).db.tasks[t].status)
  {
    hide Next, Inv;
    StepKeepsInv(s, a);
    if t in s.db.tasks {
      PlaceKept(s.db, Next(s, a).db, FootprintOf(s, a), t);
      assert t !in ActiveTasksOf(s.db, run);
      RowMoved(s.db, Next(s, a).db, FootprintOf(s, a), t);
    } else {
      StrandedGetsNoTask(s, a, run, t);
      assert false;
    }
  }

  lemma StrandedStep(s: Sys, a: Action, run: RunId)
    requires Inv(s) && Stranded(s, run) && !Rescues(s, a, run)
    ensures Stranded(Next(s, a), run)
  {
    hide Next, Inv, DbMove;
    StepKeepsInv(s, a);
    StrandedStaysActive(s, a, run);
    forall t | t in Next(s, a).db.tasks && Next(s, a).db.tasks[t].run == run
      ensures !TaskActive(Next(s, a).db.tasks[t].status)
    {
      StrandedTasksStayEnded(s, a, run, t);
    }
    var t :| t in TasksOf(s.db, run);
    PlaceKept(s.db, Next(s, a).db, FootprintOf(s, a), t);
    assert t in TasksOf(Next(s, a).db, run);
    forall p ensures !WillFinish(Next(s, a), p, run) {
      DutyHasOrigin(s, a, run, p);
    }
  }

  /** A step takes a run out of this state exactly if it rescues it. */
  lemma StrandedStepIff(s: Sys, a: Action, run: RunId)
    requires Inv(s) && Stranded(s, run)
    ensures Stranded(Next(s, a), run) <==> !Rescues(s, a, run)
  {
    hide Next, Inv, DbMove, FootprintOf;
    if !Rescues(s, a, run) {
      StrandedStep(s, a, run);
    } else if RetriesRun(s, a, run) {
      var t := FootprintOf(s, a).retried.value;
      StepKeepsInv(s, a);
      RowMoved(s.db, Next(s, a).db, FootprintOf(s, a), t);
      assert t in ActiveTasksOf(Next(s, a).db, run);
    } else {
      CancelEndsRun(s, run);
    }
  }

  lemma CancelEndsRun(s: Sys, run: RunId)
    requires RunIsActive(s.db, run)
    ensures !RunIsActive(Next(s, Action.CancelRun(run)).db, run)
  {
  }

  /**
   A process that dies between ending the last task of a run and looking at the run leaves it active for
   good: no worker, no sweep and no expired budget ever finishes it, only a user's cancel or a retry that commits.
   */
  lemma {:induction false} CrashedFinishIsNotMadeUp(s: Sys, acts: seq<Action>, run: RunId)
    requires Inv(s) && Stranded(s, run)
    requires forall i :: 0 <= i < |acts| ==> !Rescues(Exec(s, acts[..i]), acts[i], run)
    ensures RunIsActive(Exec(s, acts).db, run) && ActiveTasksOf(Exec(s, acts).db, run) == {}
    ensures Stranded(Exec(s, acts), run)
    decreases |acts|
  {
    hide Next, Inv, Rescues;
    if acts != [] {
      var front := acts[..|acts| - 1];
      FrontPrefixes(acts);
      CrashedFinishIsNotMadeUp(s, front, run);
      InvAlways(s, front);
      StrandedStep(Exec(s, front), acts[|acts| - 1], run);
    }
  }

  /** Past the deadline every retry is refused. */
  lemma OverdueIsNotRetried(s: Sys, a: Action, run: RunId)
    requires Overdue(s.db, run)
    ensures !RetriesRun(s, a, run)
  {
  }

  lemma OverdueStays(s: Sys, a: Action, run: RunId)
    requires Inv(s) && Overdue(s.db, run) && RunIsActive(Next(s, a).db, run)
    ensures Overdue(Next(s, a).db, run)
  {
    hide Next, Inv;
    StepKeepsInv(s, a);
  }

  /** Once its time is up, nothing but a cancel of the run ever ends it. */
  lemma {:induction false} OverdueRunNeedsCancel(s: Sys, acts: seq<Action>, run: RunId)
    requires Inv(s) && Stranded(s, run) && Overdue(s.db, run)
    requires forall i :: 0 <= i < |acts| ==> !(acts[i].CancelRun? && acts[i].run == run)
    ensures Stranded(Exec(s, acts), run) && Overdue(Exec(s, acts).db, run)
    decreases |acts|
  {
    hide Next, Inv, Overdue, FootprintOf;
    if acts != [] {
      var front := acts[..|acts| - 1];
      OverdueRunNeedsCancel(s, front, run);
      InvAlways(s, front);
      OverdueIsNotRetried(Exec(s, front), acts[|acts| - 1], run);
      StrandedStep(Exec(s, front), acts[|acts| - 1], run);
      OverdueStays(Exec(s, front), acts[|acts| - 1], run);
    }
  }

  // ----- When expiry makes up for it -----------------------------------------------------------------

  /** The sweep over a run is its expiry and, if that closed a task, a later look at the run by the same process. */
  lemma SweepIsExpiryAndLook(s: Sys, p: ProcId, run: RunId, first: TaskId)
    requires At(s, p).Idle? && (ActiveTasksOf(s.db, run) != {} ==> first in ActiveTasksOf(s.db, run))
    ensures Next(Next(s, Action.ExpireRun(p, run, first)), Finish(p)).db == ExpireAndFinish(s.db, run)
  {
    hide TaskModel.ExpireRun, FinalStatus, Next;
    var e := TaskModel.ExpireRun(s.db, run);
    ExpiryStep(s, p, run, first);
    ExpiryReplies(s.db, run);
    if e.reply {
      ExpiryLeavesNothingOpen(s.db, run);
      RunEndCloses(s.db, run, first);
    }
    FinishStep(Next(s, Action.ExpireRun(p, run, first)), p);
  }

  lemma FinishStep(s: Sys, p: ProcId)
    ensures Next(s, Finish(p)).db == if At(s, p).Finishing? then TryFinishRun(s.db, At(s, p).task) else s.db
  {
    hide TryFinishRun;
  }

  lemma ExpiryReplies(db: Db, run: RunId)
    ensures TaskModel.ExpireRun(db, run).reply ==> Overdue(db, run) && ActiveTasksOf(db, run) != {}
  {
  }

  lemma ExpiryLeavesNothingOpen(db: Db, run: RunId)
    requires Overdue(db, run)
    ensures var e := TaskModel.ExpireRun(db, run).db;
            ActiveTasksOf(e, run) == {} && TasksOf(e, run) == TasksOf(db, run) && RunIsActive(e, run)
  {
  }

  /** Expiry ends an overdue run exactly if the run has an open task. */
  lemma ExpiryFinishesIff(db: Db, run: RunId)
    requires Overdue(db, run)
    ensures !RunIsActive(ExpireAndFinish(db, run), run) <==> ActiveTasksOf(db, run) != {}
  {
    ExpiryLeavesNothingOpen(db, run);
  }

  const SHORT_BUDGET := Budget(1, 1, 1, 1, 60, 1, ["example.org"])
  const NO_INPUT := TaskInput(EMPTY_URL, 0, 0, "")

  /** The only worker completes the only task and dies before it looks at the run; then the deadline passes. */
  const LAST_LOOK_LOST := [
    Action.StartRun(SHORT_BUDGET, NO_INPUT), Action.ClaimTask(0, "worker", 300, None),
        ReadForComplete(1, 0, 1, NoOutput, TaskSucceeded),
    Action.CommitComplete(1), Crash(1), Tick(61)]

  const LONE_ROW := Task(0, None, "trigger", Workflow, NO_INPUT, 0, 0, TaskQueued, 0, 5, None, "", None, false, "",
                         None)
  const CLAIMED_ROW := LONE_ROW.(status := TaskRunning, attemptCount := 1, owner := "worker", leaseUntil := Some(300))
  const STARTED := Db(0, map[0 := Run(RunQueued, Some(SHORT_BUDGET), 0)], map[0 := LONE_ROW], map[], {}, {}, map[], 1,
                      1)
  const CLAIMED := Db(0, map[0 := Run(RunRunning, Some(SHORT_BUDGET), 0)], map[0 := CLAIMED_ROW],
                      map[AttemptKey(0, 1) := Attempt("worker", AttemptRunning, NoOutput)], {}, {}, map[], 1, 1)
  const COMPLETED := Db(0, map[0 := Run(RunRunning, Some(SHORT_BUDGET), 0)],
                        map[0 := Release(CLAIMED_ROW, TaskSucceeded)],
                        map[AttemptKey(0, 1) := Attempt("worker", AttemptSucceeded, NoOutput)], {}, {}, map[], 1, 1)

  lemma FirstSteps()
    ensures Next(Init(), LAST_LOOK_LOST[0]) == Sys(STARTED, map[], [])
    ensures Next(Sys(STARTED, map[], []), LAST_LOOK_LOST[1]) == Sys(CLAIMED, map[], [])
  {
    FirstClaim();
  }

  lemma FirstClaim()
    ensures TaskModel.ClaimTask(STARTED, 0, "worker", 300, None).db == CLAIMED
  {
    assert Claimable(STARTED, 0, None);
    assert CloseAttempts(map[], {0}, AttemptInterrupted) == map[];
  }

  lemma LastSteps()
    ensures Next(Sys(CLAIMED, map[], []), LAST_LOOK_LOST[2])
         == Sys(CLAIMED, map[1 := Completing(Claim(0, "worker", 1), NoOutput, TaskSucceeded)], [])
    ensures Next(Sys(CLAIMED, map[1 := Completing(Claim(0, "worker", 1), NoOutput, TaskSucceeded)], []),
                 LAST_LOOK_LOST[3])
         == Sys(COMPLETED, map[1 := Finishing(0)], [Effect(0, 1, AttemptEnded)])
  {
    assert Fenced(CLAIMED, Claim(0, "worker", 1));
  }

  lemma Exec3(s: Sys, a: Action, b: Action, c: Action)
    ensures Exec(s, [a, b, c]) == Next(Next(Next(s, a), b), c)
  {
    hide Next;
    assert [a, b, c][..2] == [a, b] && [a, b][..1] == [a] && [a][..0] == [];
    assert Exec(s, [a]) == Next(s, a) && Exec(s, [a, b]) == Next(Exec(s, [a]), b);
  }

  lemma Exec6(s: Sys, a: seq<Action>)
    requires |a| == 6
    ensures Exec(s, a) == Next(Next(Next(Next(Next(Next(s, a[0]), a[1]), a[2]), a[3]), a[4]), a[5])
  {
    hide Next;
    Exec3(s, a[0], a[1], a[2]);
    assert a[..3] == [a[0], a[1], a[2]];
    assert a[..6] == a && a[..6][..5] == a[..5] && a[..5][..4] == a[..4] && a[..4][..3] == a[..3];
    assert Exec(s, a[..4]) == Next(Exec(s, a[..3]), a[3]) && Exec(s, a[..5]) == Next(Exec(s, a[..4]), a[4]);
  }

  lemma StrandedInTheEnd()
    ensures Exec(Init(), LAST_LOOK_LOST) == Sys(COMPLETED.(now := 61), map[1 := Idle], [Effect(0, 1, AttemptEnded)])
  {
    FirstSteps();
    LastSteps();
    Exec6(Init(), LAST_LOOK_LOST);
    LosingSteps();
    hide Exec, Next;
  }

  lemma LosingSteps()
    ensures Next(Next(Sys(COMPLETED, map[1 := Finishing(0)], [Effect(0, 1, AttemptEnded)]), LAST_LOOK_LOST[4]),
                 LAST_LOOK_LOST[5])
         == Sys(COMPLETED.(now := 61), map[1 := Idle], [Effect(0, 1, AttemptEnded)])
  {
  }

  /**
   In this run of the system the run is stranded: overdue and active with nobody in charge, and whatever follows
   but a cancel of the run leaves it so, its expiry included.
   */
  lemma ACrashStrandsARun(more: seq<Action>)
    requires forall i :: 0 <= i < |more| ==> !(more[i].CancelRun? && more[i].run == 0)
    ensures var s := Exec(Init(), LAST_LOOK_LOST);
            && Inv(s) && Stranded(s, 0) && Overdue(s.db, 0)
            && Stranded(Exec(s, more), 0) && Overdue(Exec(s, more).db, 0)
  {
    hide Exec, Next, Inv, Stranded, Overdue;
    StrandedInTheEnd();
    LostRunIsStranded();
    InvInitially();
    InvAlways(Init(), LAST_LOOK_LOST);
    OverdueRunNeedsCancel(Exec(Init(), LAST_LOOK_LOST), more, 0);
  }

  lemma LostRunIsStranded()
    ensures var s := Sys(COMPLETED.(now := 61), map[1 := Idle], [Effect(0, 1, AttemptEnded)]);
            Stranded(s, 0) && Overdue(s.db, 0)
  {
    assert 0 in TasksOf(COMPLETED.(now := 61), 0);
  }
}
