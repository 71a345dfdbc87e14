/**
 Properties of every run of the task system: any number of processes, any interleaving, any crash.
 */
module Protocol {
  import opened Common
  import opened TaskModel
  import opened TaskSystem
  import opened Ownership
  import TaskStore

  /** What a process read earlier still holds for as long as its attempt is the running one. */
  ghost predicate StillCurrent(db: Db, task: TaskId, no: nat, count: nat, limit: int) {
    && task in db.tasks && AttemptKey(task, no) in db.attempts
    && (db.tasks[task].status == TaskRunning && db.tasks[task].attemptCount == no ==>
          db.tasks[task].attemptCount == count && db.tasks[task].maxAttempts == limit)
  }

  ghost predicate Holds(db: Db, c: Claim) {
    AttemptKey(c.task, c.no) in db.attempts && db.attempts[AttemptKey(c.task, c.no)].worker == c.worker
  }

  ghost predicate PcGrounded(db: Db, pc: Proc) {
    match pc
    case Idle => true
    case Completing(c, _, status) => Holds(db, c) && (status == TaskSucceeded || status == TaskLimited)
    case FailingTaskRead(task, no, count, limit, _) => StillCurrent(db, task, no, count, limit)
    case Failing(c, count, limit, _) => Holds(db, c) && StillCurrent(db, c.task, c.no, count, limit)
    case Retrying(task, count, _) => task in db.tasks && count <= db.tasks[task].attemptCount
    case Finishing(task) => task in db.tasks
  }

  ghost predicate Inv(s: Sys) {
    DbInv(s.db) && forall p :: p in s.procs ==> PcGrounded(s.db, s.procs[p])
  }

  // ----- The invariant holds in every state --------------------------------------------------

  lemma InvImpliesOrder(s: Sys)
    requires Inv(s)
    ensures IdsFresh(s.db) && PcsSensible(s)
  {
    forall p | p in s.procs && s.procs[p].Completing?
      ensures s.procs[p].status == TaskSucceeded || s.procs[p].status == TaskLimited
    {
      assert PcGrounded(s.db, s.procs[p]);
    }
  }

  lemma WorkerStepKeeps(s: Sys, a: Action)
    requires Inv(s) && (a.ReservePage? || a.CheckPageUrl? || a.SaveDocument? || a.SaveRecords? || a.CreateChild?)
    ensures DbInv(Next(s, a).db)
  {
    InvImpliesOrder(s);
    hide DbInv, OnlyKept, SameRows, DbMove, TaskModel.ReservePage, TaskModel.CheckPageUrl, TaskModel.SaveDocument,
        TaskModel.SaveRecords,
         TaskModel.CreateChild;
    match a
    case ReservePage(c, url) => ReservePageMoves(s.db, c, url); KeptKeeps(s.db, Next(s, a).db);
    case CheckPageUrl(c, url) => CheckPageMoves(s.db, c, url); KeptKeeps(s.db, Next(s, a).db);
    case SaveDocument(c, document) => DocumentMoves(s.db, c, document); KeptKeeps(s.db, Next(s, a).db);
    case SaveRecords(c, decisions) => RecordsMoves(s.db, c, decisions); KeptKeeps(s.db, Next(s, a).db);
    case CreateChild(c, step, input) => CreateChildKeeps(s.db, c, step, input);
  }

  lemma EndingStepKeeps(s: Sys, a: Action)
    requires Inv(s) && (a.CommitComplete? || a.CommitFail? || a.RecoverTask? || a.Finish?)
    ensures DbInv(Next(s, a).db)
  {
    InvImpliesOrder(s);
    hide DbInv, OnlyKept, DbMove, TaskModel.CommitComplete, TaskModel.CommitFail, TaskModel.RecoverTask, TryFinishRun;
    match a
    case CommitComplete(p) =>
      if At(s, p).Completing? { CompleteKeeps(s.db, At(s, p).claim, At(s, p).output, At(s, p).status); }
    case CommitFail(p, retryAt) =>
      if At(s, p).Failing? { FailKeeps(s.db, At(s, p).claim, WillRetry(At(s, p)), retryAt); }
    case RecoverTask(_, id) => RecoverKeeps(s.db, id);
    case Finish(p) =>
      if At(s, p).Finishing? { FinishMoves(s.db, At(s, p).task); FinishKeeps(s.db, At(s, p).task); }
  }

  lemma ClosingStepKeeps(s: Sys, a: Action)
    requires Inv(s) && (a.CancelTask? || a.CancelRun? || a.ExpireRun? || a.CommitRetry?)
    ensures DbInv(Next(s, a).db)
  {
    hide DbInv, TaskModel.CancelTask, TaskModel.CancelRun, TaskModel.ExpireRun, TaskModel.CommitRetry;
    match a
    case CancelTask(_, id) => CancelKeeps(s.db, id);
    case CancelRun(run) => CancelRunKeeps(s.db, run);
    case ExpireRun(_, run, _) => ExpireKeeps(s.db, run);
    case CommitRetry(p) =>
      if At(s, p).Retrying? { RetryKeeps(s.db, At(s, p).task, RetryLimit(At(s, p).count, At(s, p).limit)); }
  }

  lemma OtherStepKeeps(s: Sys, a: Action)
    requires Inv(s) && (a.Tick? || a.StartRun? || a.RerunRun? || a.ClaimTask? || a.RenewLease? || a.RecordLimit?)
    ensures DbInv(Next(s, a).db)
  {
    hide DbInv, OnlyKept, SameRows, DbMove, TaskModel.StartRun, TaskModel.RerunRun, TaskModel.ClaimTask,
        TaskModel.RenewLease;
    assert DbInv(s.db);
    hide Inv;
    match a
    case Tick(d) => ClockKeeps(s.db, d);
    case StartRun(_, _) => RootStepKeeps(s, a);
    case RerunRun(_) => RootStepKeeps(s, a);
    case ClaimTask(id, worker, lease, kind) => ClaimKeeps(s.db, id, worker, lease, kind);
    case RenewLease(c, lease) => RenewMoves(s.db, c, lease); KeptKeeps(s.db, TaskModel.RenewLease(s.db, c, lease).db);
    case RecordLimit(run, id, role, url, reason) => LimitKeeps(s.db, LimitEvent(run, id, role, url, reason));
  }

  lemma RootStepKeeps(s: Sys, a: Action)
    requires Inv(s) && (a.StartRun? || a.RerunRun?)
    ensures DbInv(Next(s, a).db)
  {
    InvImpliesOrder(s);
    hide DbInv, OnlyKept, DbMove, TaskModel.StartRun, TaskModel.RerunRun;
    match a
    case StartRun(budget, input) => StartKeeps(s.db, Some(budget), input);
    case RerunRun(run) => RerunKeeps(s.db, run);
  }

  lemma LimitKeeps(db: Db, e: LimitEvent)
    requires DbInv(db)
    ensures DbInv(db.(limits := db.limits + {e}))
  {
    LimitMoves(db, db.(limits := db.limits + {e}), NOTHING);
    KeptKeeps(db, db.(limits := db.limits + {e}));
  }

  lemma ClockKeeps(db: Db, d: nat)
    requires DbInv(db)
    ensures DbInv(db.(now := db.now + d))
  {
    KeptKeeps(db, db.(now := db.now + d));
  }

  lemma HoldingStays(o: Db, n: Db, c: Claim)
    requires AttemptsMove(o.attempts, n.attempts) && Holds(o, c)
    ensures Holds(n, c)
  {
  }

  /** An earlier reading stays good: a task that leaves its attempt never comes back to it. */
  lemma ReadingStaysCurrent(o: Db, n: Db, task: TaskId, no: nat, count: nat, limit: int, retried: bool, paged: bool)
    requires task in n.tasks && AttemptKey(task, no) in n.attempts
    requires StillCurrent(o, task, no, count, limit) && no <= o.tasks[task].attemptCount
    requires TaskMove(o.now, o.tasks[task], n.tasks[task], retried, paged)
    ensures StillCurrent(n, task, no, count, limit)
  {
  }

  lemma ClaimedNumber(db: Db, task: TaskId, no: nat)
    requires DbInv(db) && AttemptKey(task, no) in db.attempts
    ensures task in db.tasks && 1 <= no <= db.tasks[task].attemptCount
  {
    assert Owned(db, task);
  }

  lemma PcStaysGrounded(o: Db, n: Db, f: Footprint, pc: Proc)
    requires DbInv(o) && DbMove(o, n, f) && PcGrounded(o, pc)
    ensures PcGrounded(n, pc)
  {
    match pc
    case Idle =>
    case Completing(c, _, _) => HoldingStays(o, n, c);
    case FailingTaskRead(task, no, count, limit, _) =>
      RowMoved(o, n, f, task);
      ClaimedNumber(o, task, no);
      ReadingStaysCurrent(o, n, task, no, count, limit, f.retried == Some(task), f.paged == Some(task));
    case Failing(c, count, limit, _) =>
      HoldingStays(o, n, c);
      RowMoved(o, n, f, c.task);
      ClaimedNumber(o, c.task, c.no);
      ReadingStaysCurrent(o, n, c.task, c.no, count, limit, f.retried == Some(c.task), f.paged == Some(c.task));
    case Retrying(task, _, _) => RowMoved(o, n, f, task);
    case Finishing(task) => RowMoved(o, n, f, task);
  }

  /** The one process that acts ends up with a grounded program counter. */
  lemma ActorGrounded(s: Sys, a: Action, p: ProcId)
    requires Inv(s) && DbMove(s.db, Next(s, a).db, FootprintOf(s, a))
    requires p in Next(s, a).procs && (p !in s.procs || Next(s, a).procs[p] != s.procs[p])
    ensures PcGrounded(Next(s, a).db, Next(s, a).procs[p])
  {
    hide DbMove;
    if a.ReadForComplete? || a.ReadTaskForFail? || a.ReadAttemptForFail? || a.ReadForRetry? || a.Crash? {
      hide Next;
      ReaderGrounded(s, a, p);
    } else {
      hide Next;
      FinishingIsGrounded(s, a, p);
    }
  }

  lemma ReaderGrounded(s: Sys, a: Action, p: ProcId)
    requires Inv(s)
    requires a.ReadForComplete? || a.ReadTaskForFail? || a.ReadAttemptForFail? || a.ReadForRetry? || a.Crash?
    requires p in Next(s, a).procs && (p !in s.procs || Next(s, a).procs[p] != s.procs[p])
    ensures PcGrounded(Next(s, a).db, Next(s, a).procs[p])
  {
    hide DbInv;
    assert PcGrounded(s.db, At(s, p));
    if a.ReadTaskForFail? && AttemptKey(a.id, a.no) in s.db.attempts {
      ClaimedNumber(s.db, a.id, a.no);
    }
  }

  lemma FinishingIsGrounded(s: Sys, a: Action, p: ProcId)
    requires DbMove(s.db, Next(s, a).db, FootprintOf(s, a))
    requires p in Next(s, a).procs && (p !in s.procs || Next(s, a).procs[p] != s.procs[p])
    requires !(a.ReadForComplete? || a.ReadTaskForFail? || a.ReadAttemptForFail? || a.ReadForRetry? || a.Crash?)
    ensures PcGrounded(Next(s, a).db, Next(s, a).procs[p])
  {
    var pc := Next(s, a).procs[p];
    assert pc.Idle? || (pc.Finishing? && pc.task in s.db.tasks);
  }

  lemma StepKeepsInv(s: Sys, a: Action)
    requires Inv(s)
    ensures Inv(Next(s, a)) && DbMove(s.db, Next(s, a).db, FootprintOf(s, a))
  {
    InvImpliesOrder(s);
    StepMoves(s, a);
    if a.ReadForComplete? || a.ReadTaskForFail? || a.ReadAttemptForFail? || a.ReadForRetry? || a.Crash? {
      ReadingChangesNothing(s, a);
    } else if a.ReservePage? || a.CheckPageUrl? || a.SaveDocument? || a.SaveRecords? || a.CreateChild? {
      WorkerStepKeeps(s, a);
    } else if a.CommitComplete? || a.CommitFail? || a.RecoverTask? || a.Finish? {
      EndingStepKeeps(s, a);
    } else if a.CancelTask? || a.CancelRun? || a.ExpireRun? || a.CommitRetry? {
      ClosingStepKeeps(s, a);
    } else {
      OtherStepKeeps(s, a);
    }
    var n := Next(s, a);
    forall p | p in n.procs ensures PcGrounded(n.db, n.procs[p]) {
      if p in s.procs && n.procs[p] == s.procs[p] {
        PcStaysGrounded(s.db, n.db, FootprintOf(s, a), s.procs[p]);
      } else {
        ActorGrounded(s, a, p);
      }
    }
  }

  /** A retry in flight began with its own reading. */
  lemma NewRetrierRead(s: Sys, a: Action, p: ProcId)
    requires At(Next(s, a), p).Retrying?
    ensures || At(Next(s, a), p) == At(s, p)
            || (a.ReadForRetry? && a.id in s.db.tasks
                && At(Next(s, a), p) == Retrying(a.id, s.db.tasks[a.id].attemptCount, s.db.tasks[a.id].maxAttempts))
  {
  }

  /** Whatever the processes do, the invariant holds afterwards. */
  lemma {:induction false} InvAlways(s: Sys, acts: seq<Action>)
    requires Inv(s)
    ensures Inv(Exec(s, acts))
    decreases |acts|
  {
    if acts != [] {
      InvAlways(s, acts[..|acts| - 1]);
      StepKeepsInv(Exec(s, acts[..|acts| - 1]), acts[|acts| - 1]);
    }
  }

  /**
   The methods of the task store find what they rely on in every state: ids in use, parents older than their
   children.
   */
  lemma StoresStayValid(acts: seq<Action>)
    ensures var db := Exec(Init(), acts).db;
            TaskStore.IdsInUse(db) && TaskStore.ParentsAreOlder(db) && forall r :: r in db.runs ==> r < db.nextRun
  {
    InvInitially();
    InvAlways(Init(), acts);
    hide Exec, Next;
  }

  lemma InvInitially()
    ensures Inv(Init())
  {
  }

  /**
   In every state a task is running exactly if one of its attempts is: the latest one, whose worker holds the
   lease.  Otherwise nobody holds it, and attempts are always numbered from one to the attempt count.
   */
  lemma TasksAreOwned(acts: seq<Action>, t: TaskId)
    ensures var db := Exec(Init(), acts).db;
            t in db.tasks ==>
              && (forall n: nat :: AttemptKey(t, n) in db.attempts <==> 1 <= n <= db.tasks[t].attemptCount)
              && (forall n: nat ::
                    AttemptLooksActive(db, t, n) <==>
                      db.tasks[t].status == TaskRunning && n == db.tasks[t].attemptCount)
              && (if db.tasks[t].status == TaskRunning
                  then
                    && AttemptKey(t, db.tasks[t].attemptCount) in db.attempts
                    && db.tasks[t].owner == db.attempts[AttemptKey(t, db.tasks[t].attemptCount)].worker
                  else db.tasks[t].owner == "")
  {
    InvInitially();
    InvAlways(Init(), acts);
    var db := Exec(Init(), acts).db;
    if t in db.tasks {
      assert Owned(db, t);
    }
  }

  /** The attempt count of a task never decreases. */
  lemma {:induction false} AttemptsOnlyGrow(s: Sys, acts: seq<Action>, t: TaskId)
    requires Inv(s) && t in s.db.tasks
    ensures t in Exec(s, acts).db.tasks && s.db.tasks[t].attemptCount <= Exec(s, acts).db.tasks[t].attemptCount
    decreases |acts|
  {
    hide Next, Inv, DbMove;
    if acts != [] {
      var front := acts[..|acts| - 1];
      AttemptsOnlyGrow(s, front, t);
      InvAlways(s, front);
      StepKeepsInv(Exec(s, front), acts[|acts| - 1]);
      PlaceKept(Exec(s, front).db, Exec(s, acts).db, FootprintOf(Exec(s, front), acts[|acts| - 1]), t);
    }
  }
}
