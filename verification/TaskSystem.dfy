/**
 All processes of the service at once.  A step is one transaction or one unlocked read; what a process
 remembers between two of them, and what it still has to do, is its program counter.  A run of the
 system is any sequence of actions: any interleaving of workers, sweeps, user requests and crashes.
 */
module TaskSystem {
  import opened Common
  import opened CrawlPolicy
  import opened TaskModel

  type ProcId = nat

  /** Where a process stands between two steps. */
  datatype Proc =
    | Idle
    | Completing(claim: Claim, output: Output, status: TaskStatus)
    | FailingTaskRead(task: TaskId, no: nat, count: nat, limit: int, retryable: bool)
    | Failing(claim: Claim, count: nat, limit: int, retryable: bool)
    | Retrying(task: TaskId, count: nat, limit: int)
    | Finishing(task: TaskId)

  /** A committed write that carried the identity of an attempt. */
  datatype EffectKind = DocumentSaved | ChildCreated | ChildRefused | PageReserved | RecordsSaved | AttemptEnded

  datatype Effect = Effect(task: TaskId, no: nat, kind: EffectKind)

  datatype Sys = Sys(db: Db, procs: map<ProcId, Proc>, effects: seq<Effect>)

  datatype Action =
    | Tick(seconds: nat)
    | StartRun(budget: Budget, input: TaskInput)
    | RerunRun(run: RunId)
    | ClaimTask(id: TaskId, worker: string, lease: int, kind: Option<TaskKind>)
    | RenewLease(claim: Claim, lease: int)
    | ReservePage(claim: Claim, url: PageUrl)
    | CheckPageUrl(claim: Claim, url: PageUrl)
    | SaveDocument(claim: Claim, document: nat)
    | SaveRecords(claim: Claim, decisions: seq<Decision>)
    | CreateChild(claim: Claim, step: string, input: TaskInput)
    | RecordLimit(run: RunId, id: TaskId, role: string, url: PageUrl, reason: Reason)
    | ReadForComplete(p: ProcId, id: TaskId, no: nat, output: Output, status: TaskStatus)
    | CommitComplete(p: ProcId)
    | ReadTaskForFail(p: ProcId, id: TaskId, no: nat, retryable: bool)
    | ReadAttemptForFail(p: ProcId)
    | CommitFail(p: ProcId, retryAt: Time)
    | RecoverTask(p: ProcId, id: TaskId)
    | CancelTask(p: ProcId, id: TaskId)
    | CancelRun(run: RunId)
    | ReadForRetry(p: ProcId, id: TaskId)
    | CommitRetry(p: ProcId)
    | ExpireRun(p: ProcId, run: RunId, first: TaskId)
    | Finish(p: ProcId)
    | Crash(p: ProcId)

  function Init(): Sys {
    Sys(Db(0, map[], map[], map[], {}, {}, map[], 0, 0), map[], [])
  }

  function At(s: Sys, p: ProcId): Proc {
    if p in s.procs then s.procs[p] else Idle
  }

  /** The retry decision of Fail, from the counts it has read. */
  function WillRetry(pc: Proc): bool
    requires pc.Failing?
  {
    pc.retryable && pc.count < pc.limit
  }

  function Goto(s: Sys, p: ProcId, pc: Proc): Sys {
    s.(procs := s.procs[p := pc])
  }

  function Log(s: Sys, db: Db, c: Claim, kind: EffectKind, committed: bool): Sys {
    s.(db := db, effects := if committed then s.effects + [Effect(c.task, c.no, kind)] else s.effects)
  }

  /** One step; an action that is not possible now changes nothing. */
  function Next(s: Sys, a: Action): Sys {
    match a
    case Tick(d) => s.(db := s.db.(now := s.db.now + d))
    case StartRun(budget, input) =>
      if InRange(budget) then s.(db := TaskModel.StartRun(s.db, Some(budget), input).db) else s
    case RerunRun(run) => s.(db := TaskModel.RerunRun(s.db, run).db)
    case ClaimTask(id, worker, lease, kind) => s.(db := TaskModel.ClaimTask(s.db, id, worker, lease, kind).db)
    case RenewLease(c, lease) => s.(db := TaskModel.RenewLease(s.db, c, lease).db)
    case ReservePage(c, url) =>
      var r := TaskModel.ReservePage(s.db, c, url);
      Log(s, r.db, c, PageReserved, r.reply == PageAdmitted)
    case CheckPageUrl(c, url) => s.(db := TaskModel.CheckPageUrl(s.db, c, url).db)
    case SaveDocument(c, document) =>
      var r := TaskModel.SaveDocument(s.db, c, document);
      Log(s, r.db, c, DocumentSaved, r.reply)
    case SaveRecords(c, decisions) =>
      var r := TaskModel.SaveRecords(s.db, c, decisions);
      Log(s, r.db, c, RecordsSaved, r.reply)
    case CreateChild(c, step, input) =>
      var r := TaskModel.CreateChild(s.db, c, step, input);
      Log(s, r.db, c, if r.reply.TaskCreated? then ChildCreated
          else ChildRefused, r.reply.TaskCreated? || r.reply.BudgetExceeded?)
    case RecordLimit(run, id, role, url, reason) =>
      if run in s.db.runs && id in s.db.tasks then s.(db := TaskModel.RecordLimit(s.db, run, id, role, url, reason))
          else s
    case ReadForComplete(p, id, no, output, status) =>
      if At(s, p).Idle? && (status == TaskSucceeded || status == TaskLimited) && AttemptLooksActive(s.db, id, no)
      then Goto(s, p, Completing(Claim(id, s.db.attempts[AttemptKey(id, no)].worker, no), output, status)) else s
    case CommitComplete(p) =>
      if !At(s, p).Completing? then s
      else
        var pc := At(s, p);
        var r := TaskModel.CommitComplete(s.db, pc.claim, pc.output, pc.status);
        Goto(Log(s, r.db, pc.claim, AttemptEnded, r.reply), p, if r.reply then Finishing(pc.claim.task) else Idle)
    case ReadTaskForFail(p, id, no, retryable) =>
      if At(s, p).Idle? && id in s.db.tasks && AttemptKey(id, no) in s.db.attempts
      then Goto(s, p, FailingTaskRead(id, no, s.db.tasks[id].attemptCount, s.db.tasks[id].maxAttempts, retryable))
          else s
    case ReadAttemptForFail(p) =>
      if !At(s, p).FailingTaskRead? then s
      else
        var pc := At(s, p);
        if !AttemptLooksActive(s.db, pc.task, pc.no) then Goto(s, p, Idle)
        else
          var c := Claim(pc.task, s.db.attempts[AttemptKey(pc.task, pc.no)].worker, pc.no);
          Goto(s, p, Failing(c, pc.count, pc.limit, pc.retryable))
    case CommitFail(p, retryAt) =>
      if !At(s, p).Failing? then s
      else
        var pc := At(s, p);
        var r := TaskModel.CommitFail(s.db, pc.claim, WillRetry(pc), retryAt);
        Goto(Log(s, r.db, pc.claim, AttemptEnded, r.reply), p, if r.reply && !WillRetry(pc)
             then Finishing(pc.claim.task) else Idle)
    case RecoverTask(p, id) =>
      if !At(s, p).Idle? then s
      else
        var r := TaskModel.RecoverTask(s.db, id);
        if r.reply then Goto(s.(db := r.db), p, Finishing(id)) else s
    case CancelTask(p, id) =>
      if !At(s, p).Idle? then s
      else
        var r := TaskModel.CancelTask(s.db, id);
        if r.reply == Cancelled then Goto(s.(db := r.db), p, Finishing(id)) else s
    case CancelRun(run) => s.(db := TaskModel.CancelRun(s.db, run).db)
    case ReadForRetry(p, id) =>
      if At(s, p).Idle? && id in s.db.tasks && s.db.tasks[id].run in s.db.runs
          && Retryable(s.db.runs[s.db.tasks[id].run].status)
      then Goto(s, p, Retrying(id, s.db.tasks[id].attemptCount, s.db.tasks[id].maxAttempts)) else s
    case CommitRetry(p) =>
      if !At(s, p).Retrying? then s
      else
        var pc := At(s, p);
        Goto(s.(db := TaskModel.CommitRetry(s.db, pc.task, RetryLimit(pc.count, pc.limit)).db), p, Idle)
    case ExpireRun(p, run, first) =>
      if !At(s, p).Idle? then s
      else
        var r := TaskModel.ExpireRun(s.db, run);
        if r.reply && first in ActiveTasksOf(s.db, run) then Goto(s.(db := r.db), p, Finishing(first))
        else if r.reply then s
        else s.(db := r.db)
    case Finish(p) =>
      if !At(s, p).Finishing? then s
      else Goto(s.(db := TryFinishRun(s.db, At(s, p).task)), p, Idle)
    case Crash(p) => Goto(s, p, Idle)
  }

  function Exec(s: Sys, acts: seq<Action>): Sys
    decreases |acts|
  {
    if acts == [] then s else Next(Exec(s, acts[..|acts| - 1]), acts[|acts| - 1])
  }

  /** A run without its last action has the same earlier states. */
  lemma FrontPrefixes(acts: seq<Action>)
    requires acts != []
    ensures acts[..|acts|] == acts
    ensures forall k :: 0 <= k < |acts| ==> acts[..k] == acts[..|acts| - 1][..k]
  {
  }

  // ----- How rows may move in one step ---------------------------------------------------

  /**
   The exceptional things an action may touch: the task a retry gives back after a final failure, the
   task that reserves a page, the list of visited domains, and whether it may insert a task.
   */
  datatype Footprint = Footprint(retried: Option<TaskId>, paged: Option<TaskId>, visits: bool, inserts: bool)

  const NOTHING := Footprint(None, None, false, false)
  const INSERTION := Footprint(None, None, false, true)
  const VISIT := Footprint(None, None, true, false)

  /** The process is about to retry, and its transaction would commit. */
  predicate RetryCommits(s: Sys, p: ProcId) {
    At(s, p).Retrying? && TaskModel.CommitRetry(s.db, At(s, p).task, RetryLimit(At(s, p).count, At(s, p).limit)).reply
  }

  function FootprintOf(s: Sys, a: Action): Footprint {
    match a
    case CommitRetry(p) => if RetryCommits(s, p) then Footprint(Some(At(s, p).task), None, false, false) else NOTHING
    case ReservePage(c, _) => Footprint(None, Some(c.task), true, false)
    case CheckPageUrl(_, _) => VISIT
    case StartRun(_, _) => INSERTION
    case RerunRun(_) => INSERTION
    case CreateChild(_, _, _) => INSERTION
    case _ => NOTHING
  }

  /** The step is a retry of a task of the run that commits. */
  predicate RetriesRun(s: Sys, a: Action, run: RunId) {
    && FootprintOf(s, a).retried.Some? && FootprintOf(s, a).retried.value in s.db.tasks
    && s.db.tasks[FootprintOf(s, a).retried.value].run == run
  }

  predicate Kept(now: Time, o: Task, n: Task, paged: bool) {
    && n == o.(leaseUntil := n.leaseUntil, pageReserved := n.pageReserved, pageHost := n.pageHost,
               document := n.document)
    && (n.leaseUntil == o.leaseUntil
        || (o.status == TaskRunning && o.leaseUntil.Some? && o.leaseUntil.value > now && n.leaseUntil.Some?))
    && ((n.pageReserved == o.pageReserved && n.pageHost == o.pageHost) || (paged && !o.pageReserved))
  }

  predicate Claimed(now: Time, o: Task, n: Task) {
    && (o.status == TaskQueued || (o.status == TaskRunning && o.leaseUntil.Some? && o.leaseUntil.value < now))
    && o.attemptCount < o.maxAttempts
    && n == o.(status := TaskRunning, attemptCount := o.attemptCount + 1, owner := n.owner, leaseUntil := n.leaseUntil)
    && n.leaseUntil.Some?
  }

  /** A task ends; one that is still queued only by a cancel or by the deadline. */
  predicate Closed(o: Task, n: Task) {
    && TaskActive(o.status) && !TaskActive(n.status) && n == Release(o, n.status).(nextRetry := n.nextRetry)
    && (o.status == TaskQueued ==> n.status == TaskCancelled || n.status == TaskLimited)
  }

  predicate Requeued(o: Task, n: Task) {
    o.status == TaskRunning && n == Release(o, TaskQueued).(nextRetry := n.nextRetry)
  }

  predicate Retried(o: Task, n: Task) {
    && (o.status == TaskDeadLetter || o.status == TaskFailed)
    && n == o.(status := TaskQueued, maxAttempts := n.maxAttempts, nextRetry := n.nextRetry)
  }

  /** Every way a task row can change; a row keeps its place in the run for ever. */
  predicate TaskMove(now: Time, o: Task, n: Task, retried: bool, paged: bool) {
    if retried then Retried(o, n)
    else Kept(now, o, n, paged) || Claimed(now, o, n) || Closed(o, n) || Requeued(o, n)
  }

  predicate RunMove(o: Run, n: Run) {
    && n.budget == o.budget && n.createdAt == o.createdAt
    && (|| n.status == o.status
        || (RunActive(o.status) && n.status != RunQueued)
        || ((o.status == RunFailed || o.status == RunPartial) && n.status == RunRunning))
  }

  predicate AttemptMove(o: Attempt, n: Attempt) {
    n.worker == o.worker && (o.status != AttemptRunning ==> n == o)
  }

  predicate FreshTask(t: Task) {
    t.status == TaskQueued && t.attemptCount == 0 && t.owner == "" && t.leaseUntil.None? && !t.pageReserved
        && t.maxAttempts == 5
  }

  ghost predicate RunsMove(o: map<RunId, Run>, n: map<RunId, Run>) {
    forall r :: r in o ==> r in n && RunMove(o[r], n[r])
  }

  /** Known rows move along their life cycle; a new row takes the next id. */
  ghost predicate TasksMove(now: Time, next: TaskId, o: map<TaskId, Task>, n: map<TaskId, Task>, f: Footprint) {
    && (forall t :: t in o ==> t in n && TaskMove(now, o[t], n[t], f.retried == Some(t), f.paged == Some(t)))
    && (forall t :: t in n && t !in o ==> f.inserts && t == next && FreshTask(n[t]))
  }

  ghost predicate AttemptsMove(o: map<AttemptKey, Attempt>, n: map<AttemptKey, Attempt>) {
    forall k :: k in o ==> k in n && AttemptMove(o[k], n[k])
  }

  ghost predicate ObservationsMove(o: map<ItemKey, Decision>, n: map<ItemKey, Decision>) {
    forall k :: k in o ==> k in n && n[k] == o[k]
  }

  ghost predicate DbMove(o: Db, n: Db, f: Footprint) {
    && o.now <= n.now
    && RunsMove(o.runs, n.runs)
    && TasksMove(o.now, o.nextTask, o.tasks, n.tasks, f)
    && AttemptsMove(o.attempts, n.attempts)
    && ObservationsMove(o.observations, n.observations)
    && o.domains <= n.domains && (f.visits || n.domains == o.domains) && o.limits <= n.limits
  }

  /** No attempt is touched and no task changes hands or status; at most one new task appears. */
  ghost predicate OnlyKept(o: Db, n: Db) {
    && n.attempts == o.attempts
    && (forall t :: t in o.tasks ==> t in n.tasks && Kept(o.now, o.tasks[t], n.tasks[t], true))
    && (forall t :: t in n.tasks && t !in o.tasks ==> t == o.nextTask && FreshTask(n.tasks[t]))
  }

  /** One row of a moved table. */
  lemma RowMoved(o: Db, n: Db, f: Footprint, t: TaskId)
    requires DbMove(o, n, f) && t in o.tasks
    ensures t in n.tasks && o.now <= n.now
    ensures TaskMove(o.now, o.tasks[t], n.tasks[t], f.retried == Some(t), f.paged == Some(t))
  {
  }

  /** A task never leaves its place in the run. */
  lemma PlaceKept(o: Db, n: Db, f: Footprint, t: TaskId)
    requires DbMove(o, n, f) && t in o.tasks
    ensures t in n.tasks && n.tasks[t].run == o.tasks[t].run && n.tasks[t].parent == o.tasks[t].parent
    ensures n.tasks[t].step == o.tasks[t].step && n.tasks[t].kind == o.tasks[t].kind
    ensures n.tasks[t].input == o.tasks[t].input
    ensures n.tasks[t].depth == o.tasks[t].depth && n.tasks[t].attemptCount >= o.tasks[t].attemptCount
  {
  }

  /** The same runs and the same set of tasks. */
  ghost predicate SameRows(o: Db, n: Db) {
    n.runs == o.runs && n.tasks.Keys == o.tasks.Keys && n.nextRun == o.nextRun && n.nextTask == o.nextTask
  }

  // One lemma for each transaction.

  lemma StartMoves(db: Db, budget: Budget, input: TaskInput)
    requires IdsFresh(db)
    ensures DbMove(db, TaskModel.StartRun(db, Some(budget), input).db, INSERTION)
    ensures OnlyKept(db, TaskModel.StartRun(db, Some(budget), input).db)
  {
  }

  lemma RerunMoves(db: Db, run: RunId)
    requires IdsFresh(db)
    ensures DbMove(db, TaskModel.RerunRun(db, run).db, INSERTION)
    ensures OnlyKept(db, TaskModel.RerunRun(db, run).db)
  {
    hide FindRoot;
  }

  /** What creating a child can do to the database: insert one fresh row, or record one limit, or nothing. */
  lemma CreateChildShape(db: Db, c: Claim, step: string, input: TaskInput)
    ensures var r := TaskModel.CreateChild(db, c, step, input);
            && (r.reply.TaskCreated? ==>
                  && MayWrite(db, c) && r.reply.id == db.nextTask && db.nextTask in r.db.tasks
                  && var row := r.db.tasks[db.nextTask];
                  && FreshTask(row) && row.run == db.tasks[c.task].run && row.parent == Some(c.task)
                  && row.kind == Workflow && row.step == step && row.input == input
                  && r.db == MarkRunning(InsertTask(db, row), row.run))
            && (r.reply.BudgetExceeded? ==>
                  MayWrite(db, c) && r.db == db.(limits := r.db.limits) && db.limits <= r.db.limits)
            && (!r.reply.TaskCreated? && !r.reply.BudgetExceeded? ==> r.db == db)
  {
  }

  lemma CreateChildMoves(db: Db, c: Claim, step: string, input: TaskInput)
    requires IdsFresh(db)
    ensures DbMove(db, TaskModel.CreateChild(db, c, step, input).db, INSERTION)
    ensures OnlyKept(db, TaskModel.CreateChild(db, c, step, input).db)
  {
    hide TaskModel.CreateChild, DbMove, OnlyKept;
    CreateChildShape(db, c, step, input);
    var r := TaskModel.CreateChild(db, c, step, input);
    if r.reply.TaskCreated? {
      InsertMoves(db, r.db.tasks[db.nextTask]);
    } else {
      LimitMoves(db, r.db, INSERTION);
    }
  }

  lemma InsertMoves(db: Db, row: Task)
    requires IdsFresh(db) && FreshTask(row)
    ensures DbMove(db, MarkRunning(InsertTask(db, row), row.run), INSERTION)
    ensures OnlyKept(db, MarkRunning(InsertTask(db, row), row.run))
  {
  }

  /** Noting a limit or a host changes no row. */
  lemma LimitMoves(db: Db, n: Db, f: Footprint)
    requires n == db.(domains := n.domains, limits := n.limits) && db.limits <= n.limits && db.domains <= n.domains
    requires f.retried.None? && (f.visits || n.domains == db.domains)
    ensures DbMove(db, n, f) && OnlyKept(db, n) && SameRows(db, n)
  {
  }

  lemma ReservePageMoves(db: Db, c: Claim, url: PageUrl)
    ensures DbMove(db, TaskModel.ReservePage(db, c, url).db, Footprint(None, Some(c.task), true, false))
    ensures OnlyKept(db, TaskModel.ReservePage(db, c, url).db) && SameRows(db, TaskModel.ReservePage(db, c, url).db)
  {
    hide DbMove, OnlyKept, SameRows;
    ReservePageShape(db, c, url);
    var n := TaskModel.ReservePage(db, c, url).db;
    hide TaskModel.ReservePage;
    if n.tasks == db.tasks {
      LimitMoves(db, n, Footprint(None, Some(c.task), true, false));
    } else {
      SlotMoves(db, n, c.task);
    }
  }

  /** A reservation writes the slot into the row of its task and notes the host or a limit. */
  lemma ReservePageShape(db: Db, c: Claim, url: PageUrl)
    ensures var n := TaskModel.ReservePage(db, c, url).db;
            && n == db.(domains := n.domains, limits := n.limits, tasks := n.tasks) && db.limits <= n.limits
            && db.domains <= n.domains
            && (n.tasks != db.tasks ==>
                  && c.task in db.tasks && c.task in n.tasks && n.tasks == db.tasks[c.task := n.tasks[c.task]]
                  && Kept(db.now, db.tasks[c.task], n.tasks[c.task], true))
  {
  }

  lemma SlotMoves(db: Db, n: Db, t: TaskId)
    requires n == db.(domains := n.domains, limits := n.limits, tasks := n.tasks) && db.limits <= n.limits
    requires db.domains <= n.domains
    requires t in db.tasks && t in n.tasks && n.tasks == db.tasks[t := n.tasks[t]]
    requires Kept(db.now, db.tasks[t], n.tasks[t], true)
    ensures DbMove(db, n, Footprint(None, Some(t), true, false)) && OnlyKept(db, n) && SameRows(db, n)
  {
  }

  lemma CheckPageMoves(db: Db, c: Claim, url: PageUrl)
    ensures DbMove(db, TaskModel.CheckPageUrl(db, c, url).db, VISIT)
    ensures OnlyKept(db, TaskModel.CheckPageUrl(db, c, url).db) && SameRows(db, TaskModel.CheckPageUrl(db, c, url).db)
  {
    hide DbMove, OnlyKept, SameRows;
    var n := TaskModel.CheckPageUrl(db, c, url).db;
    assert n == db.(domains := n.domains, limits := n.limits) && db.limits <= n.limits && db.domains <= n.domains;
    LimitMoves(db, n, VISIT);
  }

  lemma ClaimMoves(db: Db, id: TaskId, worker: string, lease: int, kind: Option<TaskKind>)
    ensures DbMove(db, TaskModel.ClaimTask(db, id, worker, lease, kind).db, NOTHING)
  {
    var n := TaskModel.ClaimTask(db, id, worker, lease, kind).db;
    if n == db {
      NothingMoves(db, NOTHING);
    } else {
      assert n == db.(tasks := db.tasks[id := n.tasks[id]], attempts := n.attempts, runs := n.runs);
      ClaimMovesTask(db, id, worker, lease, kind);
      ClaimMovesOthers(db, id, worker, lease, kind);
      hide TaskModel.ClaimTask, TaskMove, RunsMove, AttemptsMove;
    }
  }

  lemma ClaimMovesTask(db: Db, id: TaskId, worker: string, lease: int, kind: Option<TaskKind>)
    requires TaskModel.ClaimTask(db, id, worker, lease, kind).reply.Some?
    ensures var n := TaskModel.ClaimTask(db, id, worker, lease, kind).db;
            id in db.tasks && id in n.tasks && TaskMove(db.now, db.tasks[id], n.tasks[id], false, false)
  {
  }

  lemma ClaimMovesOthers(db: Db, id: TaskId, worker: string, lease: int, kind: Option<TaskKind>)
    ensures RunsMove(db.runs, TaskModel.ClaimTask(db, id, worker, lease, kind).db.runs)
    ensures AttemptsMove(db.attempts, TaskModel.ClaimTask(db, id, worker, lease, kind).db.attempts)
  {
  }

  /** One row changes its lease, page slot or document; everything else stays. */
  lemma OneRowKept(db: Db, n: Db, t: TaskId)
    requires t in db.tasks && t in n.tasks && n == db.(tasks := db.tasks[t := n.tasks[t]])
    requires Kept(db.now, db.tasks[t], n.tasks[t], false)
    ensures DbMove(db, n, NOTHING) && OnlyKept(db, n) && SameRows(db, n)
  {
  }

  lemma NothingMoves(db: Db, f: Footprint)
    requires f.retried.None?
    ensures DbMove(db, db, f) && OnlyKept(db, db) && SameRows(db, db)
  {
  }

  lemma RenewMoves(db: Db, c: Claim, lease: int)
    ensures DbMove(db, TaskModel.RenewLease(db, c, lease).db, NOTHING)
    ensures OnlyKept(db, TaskModel.RenewLease(db, c, lease).db) && SameRows(db, TaskModel.RenewLease(db, c, lease).db)
  {
    hide DbMove, OnlyKept, SameRows;
    var r := TaskModel.RenewLease(db, c, lease);
    if r.reply {
      OneRowKept(db, r.db, c.task);
    } else {
      NothingMoves(db, NOTHING);
    }
  }

  lemma DocumentMoves(db: Db, c: Claim, document: nat)
    ensures DbMove(db, TaskModel.SaveDocument(db, c, document).db, NOTHING)
    ensures OnlyKept(db, TaskModel.SaveDocument(db, c, document).db)
    ensures SameRows(db, TaskModel.SaveDocument(db, c, document).db)
  {
    hide DbMove, OnlyKept, SameRows;
    var r := TaskModel.SaveDocument(db, c, document);
    if r.reply {
      OneRowKept(db, r.db, c.task);
    } else {
      NothingMoves(db, NOTHING);
    }
  }

  lemma RecordsMoves(db: Db, c: Claim, decisions: seq<Decision>)
    ensures DbMove(db, TaskModel.SaveRecords(db, c, decisions).db, NOTHING)
    ensures OnlyKept(db, TaskModel.SaveRecords(db, c, decisions).db)
    ensures SameRows(db, TaskModel.SaveRecords(db, c, decisions).db)
  {
    ObserveMoves(db.observations, c.task, decisions);
  }

  lemma {:induction false} ObserveMoves(seen: map<ItemKey, Decision>, task: TaskId, decisions: seq<Decision>)
    ensures ObservationsMove(seen, Observe(seen, task, decisions))
  {
    if decisions != [] {
      ObserveMoves(seen, task, decisions[..|decisions| - 1]);
    }
  }

  lemma CompleteMoves(db: Db, c: Claim, output: Output, status: TaskStatus)
    requires !TaskActive(status)
    ensures DbMove(db, TaskModel.CommitComplete(db, c, output, status).db, NOTHING)
  {
  }

  lemma FailMoves(db: Db, c: Claim, willRetry: bool, retryAt: Time)
    ensures DbMove(db, TaskModel.CommitFail(db, c, willRetry, retryAt).db, NOTHING)
  {
  }

  lemma RecoverMoves(db: Db, id: TaskId)
    ensures DbMove(db, TaskModel.RecoverTask(db, id).db, NOTHING)
  {
  }

  /** Bulk closing moves every row it touches from open to final. */
  lemma ClosingMoves(now: Time, next: TaskId, tasks: map<TaskId, Task>, ids: set<TaskId>, status: TaskStatus,
                     attempts: map<AttemptKey, Attempt>, attemptStatus: AttemptStatus)
    requires status == TaskCancelled || status == TaskLimited
    ensures TasksMove(now, next, tasks, CloseTasks(tasks, ids, status), NOTHING)
    ensures AttemptsMove(attempts, CloseAttempts(attempts, ids, attemptStatus))
  {
  }

  lemma CancelMoves(db: Db, id: TaskId)
    ensures DbMove(db, TaskModel.CancelTask(db, id).db, NOTHING)
  {
    var ids := Subtree(db, id);
    ClosingMoves(db.now, db.nextTask, db.tasks, ids, TaskCancelled, db.attempts, AttemptCancelled);
    var n := TaskModel.CancelTask(db, id).db;
    assert n == db || n == db.(tasks := CloseTasks(db.tasks, ids, TaskCancelled),
                               attempts := CloseAttempts(db.attempts, ids, AttemptCancelled));
  }

  lemma CancelRunMoves(db: Db, run: RunId)
    ensures DbMove(db, TaskModel.CancelRun(db, run).db, NOTHING)
  {
    ClosingMoves(db.now, db.nextTask, db.tasks, TasksOf(db, run), TaskCancelled, db.attempts, AttemptCancelled);
  }

  lemma ExpireMoves(db: Db, run: RunId)
    ensures DbMove(db, TaskModel.ExpireRun(db, run).db, NOTHING)
  {
    ClosingMoves(db.now, db.nextTask, db.tasks, TasksOf(db, run), TaskLimited, db.attempts, AttemptLimited);
  }

  lemma RetryMoves(db: Db, id: TaskId, limit: int)
    ensures var r := TaskModel.CommitRetry(db, id, limit);
            DbMove(db, r.db, if r.reply then Footprint(Some(id), None, false, false) else NOTHING)
  {
  }

  lemma FinishMoves(db: Db, id: TaskId)
    ensures DbMove(db, TryFinishRun(db, id), NOTHING)
    ensures TryFinishRun(db, id).tasks == db.tasks && OnlyKept(db, TryFinishRun(db, id))
  {
  }

  // ----- Every step is a move ---------------------------------------------------------------

  /** Ids not yet handed out have no rows. */
  ghost predicate IdsFresh(db: Db) {
    db.nextTask !in db.tasks && db.nextRun !in db.runs
  }

  /** Only final statuses wait to be committed. */
  ghost predicate PcsSensible(s: Sys) {
    forall p ::
          p in s.procs && s.procs[p].Completing? ==>
            s.procs[p].status == TaskSucceeded || s.procs[p].status == TaskLimited
  }

  lemma WorkerStepMoves(s: Sys, a: Action)
    requires IdsFresh(s.db)
    requires a.ReservePage? || a.CheckPageUrl? || a.SaveDocument? || a.SaveRecords? || a.CreateChild?
    ensures DbMove(s.db, Next(s, a).db, FootprintOf(s, a))
  {
    match a
    case ReservePage(c, url) => ReservePageMoves(s.db, c, url);
    case CheckPageUrl(c, url) => CheckPageMoves(s.db, c, url);
    case SaveDocument(c, document) => DocumentMoves(s.db, c, document);
    case SaveRecords(c, decisions) => RecordsMoves(s.db, c, decisions);
    case CreateChild(c, step, input) => CreateChildMoves(s.db, c, step, input);
  }

  lemma EndingStepMoves(s: Sys, a: Action)
    requires PcsSensible(s)
    requires a.CommitComplete? || a.CommitFail? || a.RecoverTask?
    ensures DbMove(s.db, Next(s, a).db, FootprintOf(s, a))
  {
    hide DbMove, TaskModel.CommitComplete, TaskModel.CommitFail, TaskModel.RecoverTask, OnlyKept, SameRows;
    NothingMoves(s.db, NOTHING);
    match a
    case CommitComplete(p) =>
      if At(s, p).Completing? { CompleteMoves(s.db, At(s, p).claim, At(s, p).output, At(s, p).status); }
    case CommitFail(p, retryAt) =>
      if At(s, p).Failing? { FailMoves(s.db, At(s, p).claim, WillRetry(At(s, p)), retryAt); }
    case RecoverTask(_, id) => RecoverMoves(s.db, id);
  }

  lemma ClosingStepMoves(s: Sys, a: Action)
    requires a.CancelTask? || a.CancelRun? || a.ExpireRun? || a.Finish?
    ensures DbMove(s.db, Next(s, a).db, FootprintOf(s, a))
  {
    hide DbMove, TaskModel.CancelTask, TaskModel.CancelRun, TaskModel.ExpireRun, TryFinishRun;
    NothingMoves(s.db, NOTHING);
    match a
    case CancelTask(_, id) => CancelMoves(s.db, id);
    case CancelRun(run) => CancelRunMoves(s.db, run);
    case ExpireRun(_, run, _) => ExpireMoves(s.db, run);
    case Finish(p) =>
      if At(s, p).Finishing? { FinishMoves(s.db, At(s, p).task); }
  }

  lemma OtherStepMoves(s: Sys, a: Action)
    requires IdsFresh(s.db)
    requires a.Tick? || a.StartRun? || a.RerunRun? || a.ClaimTask? || a.RenewLease? || a.RecordLimit? || a.CommitRetry?
    ensures DbMove(s.db, Next(s, a).db, FootprintOf(s, a))
  {
    hide DbMove, TaskModel.StartRun, TaskModel.RerunRun, TaskModel.ClaimTask, TaskModel.RenewLease,
        TaskModel.CommitRetry, OnlyKept, SameRows;
    if FootprintOf(s, a).retried.None? {
      NothingMoves(s.db, FootprintOf(s, a));
    }
    match a
    case Tick(d) => ClockMoves(s.db, d);
    case RecordLimit(_, _, _, _, _) => LimitMoves(s.db, Next(s, a).db, NOTHING);
    case StartRun(budget, input) => StartMoves(s.db, budget, input);
    case RerunRun(run) => RerunMoves(s.db, run);
    case ClaimTask(id, worker, lease, kind) => ClaimMoves(s.db, id, worker, lease, kind);
    case RenewLease(c, lease) => RenewMoves(s.db, c, lease);
    case CommitRetry(p) =>
      if At(s, p).Retrying? { RetryMoves(s.db, At(s, p).task, RetryLimit(At(s, p).count, At(s, p).limit)); }
    case _ =>
  }

  lemma ClockMoves(db: Db, d: nat)
    ensures DbMove(db, db.(now := db.now + d), NOTHING)
  {
  }

  lemma ReadingChangesNothing(s: Sys, a: Action)
    requires a.ReadForComplete? || a.ReadTaskForFail? || a.ReadAttemptForFail? || a.ReadForRetry? || a.Crash?
    ensures Next(s, a).db == s.db && Next(s, a).effects == s.effects
  {
  }

  lemma ChildStep(s: Sys, c: Claim, step: string, input: TaskInput)
    ensures Next(s, Action.CreateChild(c, step, input)).db == TaskModel.CreateChild(s.db, c, step, input).db
  {
    hide TaskModel.CreateChild;
  }

  lemma RootHasNoParent(s: Sys, a: Action, t: TaskId)
    requires (a.StartRun? || a.RerunRun?) && t in Next(s, a).db.tasks && t !in s.db.tasks
    ensures Next(s, a).db.tasks[t].parent.None? && Next(s, a).db.tasks[t].run == s.db.nextRun && t == s.db.nextTask
  {
  }

  /** Every step moves every row along its life cycle. */
  lemma StepMoves(s: Sys, a: Action)
    requires IdsFresh(s.db) && PcsSensible(s)
    ensures DbMove(s.db, Next(s, a).db, FootprintOf(s, a))
  {
    if a.ReadForComplete? || a.ReadTaskForFail? || a.ReadAttemptForFail? || a.ReadForRetry? || a.Crash? {
      ReadingChangesNothing(s, a);
    } else if a.ReservePage? || a.CheckPageUrl? || a.SaveDocument? || a.SaveRecords? || a.CreateChild? {
      WorkerStepMoves(s, a);
    } else if a.CommitComplete? || a.CommitFail? || a.RecoverTask? {
      EndingStepMoves(s, a);
    } else if a.CancelTask? || a.CancelRun? || a.ExpireRun? || a.Finish? {
      ClosingStepMoves(s, a);
    } else {
      OtherStepMoves(s, a);
    }
  }
}
