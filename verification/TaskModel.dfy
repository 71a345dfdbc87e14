/**
 The durable task protocol on values: the rows of one database and, for each transaction of the
 task repository, the database it leaves behind.  TaskStore runs the same transactions row by row.
 Instants and durations are whole seconds of one clock.
 */
module TaskModel {
  import opened Common
  import opened CrawlPolicy

  type Time = nat
  type RunId = nat
  type TaskId = nat

  datatype RunStatus =
    RunQueued | RunRunning | RunSucceeded | RunPartial | RunLimited | RunFailed | RunCancelled

  datatype TaskStatus =
    TaskQueued | TaskRunning | TaskSucceeded | TaskFailed | TaskCancelled | TaskDeadLetter | TaskLimited

  datatype AttemptStatus =
    AttemptRunning | AttemptSucceeded | AttemptFailed | AttemptInterrupted | AttemptCancelled | AttemptLimited

  datatype Reason =
    MaxDuration | AllowedDomains | MaxDepth | MaxTasks | MaxDiscoveredPerPage | MaxPages | MaxDomains

  datatype TaskKind = Workflow | Other(name: string)

  /** The JSON input of a task, as far as the repository looks into it. */
  datatype TaskInput = TaskInput(url: PageUrl, pageIndex: int, emptyStreak: int, rest: string)

  datatype Decision = Created | Updated | Unchanged

  datatype RecordResult = RecordResult(recordId: int, decision: Decision)

  /** The stored output of an attempt, as far as a run summary looks into it. */
  datatype Output = NoOutput | Output(discovered: int, resourceId: int, limited: bool, results: seq<RecordResult>)

  datatype Run = Run(status: RunStatus, budget: Option<Budget>, createdAt: Time)

  datatype Task = Task(
    run: RunId,
    parent: Option<TaskId>,
    step: string,
    kind: TaskKind,
    input: TaskInput,
    depth: int,
    createdAt: Time,
    status: TaskStatus,
    attemptCount: nat,
    maxAttempts: int,
    nextRetry: Option<Time>,
    owner: string,
    leaseUntil: Option<Time>,
    pageReserved: bool,
    pageHost: string,
    document: Option<nat>)

  datatype AttemptKey = AttemptKey(task: TaskId, no: nat)

  datatype Attempt = Attempt(worker: string, status: AttemptStatus, output: Output)

  datatype Domain = Domain(run: RunId, host: string)

  datatype LimitEvent = LimitEvent(run: RunId, task: TaskId, role: string, url: PageUrl, reason: Reason)

  /** A record observation is identified by the task and the item it was extracted from. */
  datatype ItemKey = ItemKey(task: TaskId, item: nat)

  datatype Db = Db(
    now: Time,
    runs: map<RunId, Run>,
    tasks: map<TaskId, Task>,
    attempts: map<AttemptKey, Attempt>,
    domains: set<Domain>,
    limits: set<LimitEvent>,
    observations: map<ItemKey, Decision>,
    nextRun: RunId,
    nextTask: TaskId)

  /** What a worker holds after claiming: the task, its own name and the number of its attempt. */
  datatype Claim = Claim(task: TaskId, worker: string, no: nat)

  datatype Tx<T> = Tx(db: Db, reply: T)

  // ----- Reading rows ------------------------------------------------------------------

  predicate RunActive(status: RunStatus) {
    status == RunQueued || status == RunRunning
  }

  predicate TaskActive(status: TaskStatus) {
    status == TaskQueued || status == TaskRunning
  }

  predicate RunIsActive(db: Db, run: RunId) {
    run in db.runs && RunActive(db.runs[run].status)
  }

  /** The fence: the claim is the task's present attempt and its lease has not run out. */
  predicate Fenced(db: Db, c: Claim) {
    && c.task in db.tasks
    && var t := db.tasks[c.task];
    && t.status == TaskRunning && t.owner == c.worker && t.attemptCount == c.no
    && t.leaseUntil.Some? && t.leaseUntil.value > db.now
  }

  predicate LeaseExpired(db: Db, t: Task) {
    t.leaseUntil.Some? && t.leaseUntil.value < db.now
  }

  /** The condition of a fenced write: the run is active and the claim passes the fence. */
  predicate MayWrite(db: Db, c: Claim) {
    && c.task in db.tasks
    && RunIsActive(db, db.tasks[c.task].run)
    && Fenced(db, c)
  }

  predicate Claimable(db: Db, id: TaskId, kind: Option<TaskKind>) {
    && id in db.tasks
    && var t := db.tasks[id];
    && ((t.status == TaskQueued && (t.nextRetry.None? || t.nextRetry.value <= db.now))
        || (t.status == TaskRunning && LeaseExpired(db, t)))
    && t.attemptCount < t.maxAttempts
    && RunIsActive(db, t.run)
    && (kind.Some? ==> t.kind == kind.value)
  }

  function Deadline(run: Run, b: Budget): int {
    run.createdAt + b.maxDurationSeconds
  }

  function TasksOf(db: Db, run: RunId): set<TaskId> {
    set id | id in db.tasks && db.tasks[id].run == run
  }

  function ActiveTasksOf(db: Db, run: RunId): set<TaskId> {
    set id | id in db.tasks && db.tasks[id].run == run && TaskActive(db.tasks[id].status)
  }

  function DetailsOf(db: Db, run: RunId, parent: TaskId): set<TaskId> {
    set id | id in db.tasks && db.tasks[id].run == run && db.tasks[id].parent == Some(parent)
        && db.tasks[id].step == "detail"
  }

  function PagesOf(db: Db, run: RunId): set<TaskId> {
    set id | id in db.tasks && db.tasks[id].run == run && db.tasks[id].pageReserved
  }

  function DomainsOf(db: Db, run: RunId): set<Domain> {
    set d | d in db.domains && d.run == run
  }

  /** Two requests for the same piece of work: same address, or same input when there is no address. */
  predicate SameWork(t: Task, run: RunId, step: string, input: TaskInput) {
    && t.run == run && t.kind == Workflow && t.step == step
    && (if input.url != EMPTY_URL then t.input.url == input.url else t.input == input)
  }

  /** The task with the lowest id from `from` on that does the requested work. */
  function FindWork(db: Db, run: RunId, step: string, input: TaskInput, from: TaskId): (found: Option<TaskId>)
    ensures found.Some? ==> found.value in db.tasks && SameWork(db.tasks[found.value], run, step, input)
    ensures found.None? ==> forall id ::
              id in db.tasks && from <= id < db.nextTask ==> !SameWork(db.tasks[id], run, step, input)
    ensures found.Some? ==> forall id ::
              id in db.tasks && from <= id < found.value ==> !SameWork(db.tasks[id], run, step, input)
    decreases db.nextTask - from
  {
    if from >= db.nextTask then None
    else if from in db.tasks && SameWork(db.tasks[from], run, step, input) then Some(from)
    else FindWork(db, run, step, input, from + 1)
  }

  // ----- Creating runs and tasks -------------------------------------------------------

  function NewTask(db: Db, run: RunId, parent: Option<TaskId>, step: string, kind: TaskKind, input: TaskInput,
                   depth: int, maxAttempts: int): Task {
    Task(run, parent, step, kind, input, depth, db.now, TaskQueued, 0, maxAttempts, None, "", None, false, "", None)
  }

  function InsertTask(db: Db, row: Task): Db {
    db.(tasks := db.tasks[db.nextTask := row], nextTask := db.nextTask + 1)
  }

  function MarkRunning(db: Db, run: RunId): Db {
    if run in db.runs && db.runs[run].status == RunQueued
    then db.(runs := db.runs[run := db.runs[run].(status := RunRunning)])
    else db
  }

  /** A published workflow starts: run, root task and budget snapshot commit together. */
  function StartRun(db: Db, budget: Option<Budget>, input: TaskInput): Tx<RunId> {
    var withRun := db.(runs := db.runs[db.nextRun := Run(RunQueued, budget, db.now)], nextRun := db.nextRun + 1);
    Tx(InsertTask(withRun, NewTask(db, db.nextRun, None, "trigger", Workflow, input, 0, 5)), db.nextRun)
  }

  /** The root task of a run: the one without a parent and with the lowest id. */
  function FindRoot(db: Db, run: RunId, from: TaskId): (found: Option<TaskId>)
    ensures found.Some? ==>
              found.value in db.tasks && db.tasks[found.value].run == run && db.tasks[found.value].parent.None?
    decreases db.nextTask - from
  {
    if from >= db.nextTask then None
    else if from in db.tasks && db.tasks[from].run == run && db.tasks[from].parent.None? then Some(from)
    else FindRoot(db, run, from + 1)
  }

  function RerunRun(db: Db, run: RunId): Tx<Option<RunId>> {
    if run !in db.runs || FindRoot(db, run, 0).None? then Tx(db, None)
    else
      var root := db.tasks[FindRoot(db, run, 0).value];
      var withRun := db.(runs := db.runs[db.nextRun := Run(RunQueued, db.runs[run].budget, db.now)],
                         nextRun := db.nextRun + 1);
      Tx(InsertTask(withRun, NewTask(db, db.nextRun, None, root.step, root.kind, root.input, 0, 5)), Some(db.nextRun))
  }

  /** Why the run's budget refuses a child task, if it does; the order of the checks is the order of the answers. */
  function ChildBudgetReason(db: Db, run: RunId, parent: TaskId, step: string, input: TaskInput): Option<Reason>
    requires run in db.runs && parent in db.tasks
  {
    match db.runs[run].budget
    case None => None
    case Some(b) =>
      if db.now > Deadline(db.runs[run], b) then Some(MaxDuration)
      else if !Admits(b, input.url) then Some(AllowedDomains)
      else if db.tasks[parent].depth + 1 > b.maxDepth then Some(MaxDepth)
      else if |TasksOf(db, run)| >= b.maxTasks then Some(MaxTasks)
      else if step == "detail" && |DetailsOf(db, run, parent)| >= b.maxDiscoveredPerPage then Some(MaxDiscoveredPerPage)
      else None
  }

  datatype CreateReply =
    TaskCreated(id: TaskId) | TaskExists(id: TaskId) | BudgetExceeded(reason: Reason) | RunInactive | StaleAttempt

  function CreateTask(db: Db, run: RunId, parent: Option<TaskId>, step: string, kind: TaskKind, input: TaskInput,
                      maxAttempts: int, attempt: Option<Claim>): Tx<CreateReply> {
    var attempts := if maxAttempts <= 0 then 5 else maxAttempts;
    if !RunIsActive(db, run) then Tx(db, RunInactive)
    else if parent.None? then
      Tx(MarkRunning(InsertTask(db, NewTask(db, run, None, step, kind, input, 0, attempts)), run),
         TaskCreated(db.nextTask))
    else
      var p := parent.value;
      if p !in db.tasks || db.tasks[p].run != run || db.tasks[p].status != TaskRunning then Tx(db, StaleAttempt)
      else if attempt.Some? && !Fenced(db, Claim(p, attempt.value.worker, attempt.value.no)) then Tx(db, StaleAttempt)
      else if kind != Workflow then
        Tx(MarkRunning(InsertTask(db, NewTask(db, run, parent, step, kind, input, 0, attempts)), run),
           TaskCreated(db.nextTask))
      else
        var existing := FindWork(db, run, step, input, 0);
        if existing.Some? then Tx(db, TaskExists(existing.value))
        else
          var reason := ChildBudgetReason(db, run, p, step, input);
          if reason.Some? then
            Tx(RecordLimit(db, run, p, step, input.url, reason.value), BudgetExceeded(reason.value))
          else
            var depth := if db.runs[run].budget.Some? then db.tasks[p].depth + 1 else 0;
            Tx(MarkRunning(InsertTask(db, NewTask(db, run, parent, step, kind, input, depth, attempts)), run),
               TaskCreated(db.nextTask))
  }

  /** The call a worker makes for the task it has claimed. */
  function CreateChild(db: Db, c: Claim, step: string, input: TaskInput): Tx<CreateReply> {
    if c.task !in db.tasks then Tx(db, StaleAttempt)
    else CreateTask(db, db.tasks[c.task].run, Some(c.task), step, Workflow, input, 5, Some(c))
  }

  function RecordLimit(db: Db, run: RunId, task: TaskId, role: string, url: PageUrl, reason: Reason): Db {
    db.(limits := db.limits + {LimitEvent(run, task, role, url, reason)})
  }

  // ----- Claiming and leases -----------------------------------------------------------

  /** Every running attempt of the given tasks is closed with `status`. */
  function CloseAttempts(attempts: map<AttemptKey, Attempt>, tasks: set<TaskId>, status: AttemptStatus): map<AttemptKey,
      Attempt> {
    map k | k in attempts ::
      if k.task in tasks && attempts[k].status == AttemptRunning then attempts[k].(status := status) else attempts[k]
  }

  function LeaseSeconds(lease: int): nat {
    if lease <= 0 then 300 else lease
  }

  /** One claim; a second row with the same task and attempt number is refused by the table's unique key. */
  function ClaimTask(db: Db, id: TaskId, worker: string, lease: int, kind: Option<TaskKind>): Tx<Option<Claim>> {
    if !Claimable(db, id, kind) then Tx(db, None)
    else
      var t := db.tasks[id];
      var key := AttemptKey(id, t.attemptCount + 1);
      var closed := CloseAttempts(db.attempts, {id}, AttemptInterrupted);
      if key in db.attempts then Tx(db, None)
      else
        var row := t.(status := TaskRunning, attemptCount := t.attemptCount + 1, owner := worker,
                      leaseUntil := Some(db.now + LeaseSeconds(lease)));
        Tx(MarkRunning(db.(tasks := db.tasks[id := row],
                           attempts := closed[key := Attempt(worker, AttemptRunning, NoOutput)]), t.run),
           Some(Claim(id, worker, t.attemptCount + 1)))
  }

  function RenewLease(db: Db, c: Claim, lease: int): Tx<bool> {
    if lease <= 0 || !Fenced(db, c) then Tx(db, false)
    else Tx(db.(tasks := db.tasks[c.task := db.tasks[c.task].(leaseUntil := Some(db.now + lease))]), true)
  }

  /** A task leaves the worker's hands with a final or a queued status. */
  function Release(t: Task, status: TaskStatus): Task {
    t.(status := status, owner := "", leaseUntil := None)
  }

  /** The unlocked check before completing or failing: the attempt row exists and is running. */
  predicate AttemptLooksActive(db: Db, task: TaskId, no: nat) {
    AttemptKey(task, no) in db.attempts && db.attempts[AttemptKey(task, no)].status == AttemptRunning
  }

  function AttemptOutcome(status: TaskStatus): AttemptStatus {
    match status
    case TaskSucceeded => AttemptSucceeded
    case TaskLimited => AttemptLimited
    case TaskCancelled => AttemptCancelled
    case _ => AttemptFailed
  }

  /** The transaction of Complete and CompleteLimited: both rows change or none. */
  function CommitComplete(db: Db, c: Claim, output: Output, status: TaskStatus): Tx<bool> {
    if !Fenced(db, c) || !AttemptLooksActive(db, c.task, c.no) then Tx(db, false)
    else
      var key := AttemptKey(c.task, c.no);
      Tx(db.(tasks := db.tasks[c.task := Release(db.tasks[c.task], status)],
             attempts := db.attempts[key := db.attempts[key].(status := AttemptOutcome(status),
                                                              output := output)]), true)
  }

  /** The transaction of Fail, with the retry decision taken before it began. */
  function CommitFail(db: Db, c: Claim, willRetry: bool, retryAt: Time): Tx<bool> {
    if !Fenced(db, c) || !AttemptLooksActive(db, c.task, c.no) then Tx(db, false)
    else
      var key := AttemptKey(c.task, c.no);
      var row := if willRetry then Release(db.tasks[c.task], TaskQueued).(nextRetry := Some(retryAt))
                 else Release(db.tasks[c.task], TaskDeadLetter);
      Tx(db.(tasks := db.tasks[c.task := row],
             attempts := db.attempts[key := db.attempts[key].(status := AttemptFailed)]), true)
  }

  function RecoverTask(db: Db, id: TaskId): Tx<bool> {
    if id !in db.tasks || db.tasks[id].status != TaskRunning || !LeaseExpired(db, db.tasks[id]) then Tx(db, false)
    else
      var t := db.tasks[id];
      var status := if t.attemptCount >= t.maxAttempts then TaskDeadLetter else TaskQueued;
      Tx(db.(tasks := db.tasks[id := Release(t, status).(nextRetry := Some(db.now))],
             attempts := CloseAttempts(db.attempts, {id}, AttemptInterrupted)), true)
  }

  // ----- Writes under the fence ---------------------------------------------------------

  function SaveDocument(db: Db, c: Claim, document: nat): Tx<bool> {
    if !MayWrite(db, c) then Tx(db, false)
    else Tx(db.(tasks := db.tasks[c.task := db.tasks[c.task].(document := Some(document))]), true)
  }

  function Observe(seen: map<ItemKey, Decision>, task: TaskId, decisions: seq<Decision>): map<ItemKey, Decision> {
    if decisions == [] then seen
    else
      var earlier := Observe(seen, task, decisions[..|decisions| - 1]);
      var key := ItemKey(task, |decisions| - 1);
      if key in earlier then earlier else earlier[key := decisions[|decisions| - 1]]
  }

  /** Observations of one batch; an item that was already observed keeps its first decision. */
  function SaveRecords(db: Db, c: Claim, decisions: seq<Decision>): Tx<bool> {
    if !MayWrite(db, c) then Tx(db, false)
    else
      Tx(db.(observations := Observe(db.observations, c.task, decisions)), true)
  }

  // ----- Pages and domains ----------------------------------------------------------------

  function ReserveDomain(db: Db, run: RunId, b: Budget, host: string): Tx<Option<Reason>> {
    if Domain(run, host) in db.domains then Tx(db, None)
    else if |DomainsOf(db, run)| >= b.maxDomains then Tx(db, Some(MaxDomains))
    else Tx(db.(domains := db.domains + {Domain(run, host)}), None)
  }

  datatype PageReply = PageAdmitted | PageRefused(reason: Reason) | PageStale | NoBudget

  function LimitReply(db: Db, run: RunId, task: TaskId, role: string, url: PageUrl,
                      reason: Option<Reason>): Tx<PageReply> {
    match reason
    case None => Tx(db, PageAdmitted)
    case Some(r) => Tx(RecordLimit(db, run, task, role, url, r), PageRefused(r))
  }

  /** One page slot per task, kept across its attempts. */
  function ReservePage(db: Db, c: Claim, url: PageUrl): Tx<PageReply> {
    if !MayWrite(db, c) then Tx(db, PageStale)
    else
      var t := db.tasks[c.task];
      match db.runs[t.run].budget
      case None => Tx(db, NoBudget)
      case Some(b) =>
        if db.now > Deadline(db.runs[t.run], b) then LimitReply(db, t.run, c.task, t.step, url, Some(MaxDuration))
        else if !Admits(b, url) then LimitReply(db, t.run, c.task, t.step, url, Some(AllowedDomains))
        else if t.depth > b.maxDepth then LimitReply(db, t.run, c.task, t.step, url, Some(MaxDepth))
        else if t.pageReserved then Tx(db, PageAdmitted)
        else if |PagesOf(db, t.run)| >= b.maxPages then LimitReply(db, t.run, c.task, t.step, url, Some(MaxPages))
        else
          var reserved := ReserveDomain(db, t.run, b, url.host);
          if reserved.reply.Some? then LimitReply(reserved.db, t.run, c.task, t.step, url, reserved.reply)
          else Tx(reserved.db.(tasks := db.tasks[c.task := t.(pageReserved := true,
                                                              pageHost := url.host)]), PageAdmitted)
  }

  /** The check before a redirected request; a run without a budget has an elapsed deadline. */
  function CheckPageUrl(db: Db, c: Claim, url: PageUrl): Tx<PageReply> {
    if !MayWrite(db, c) then Tx(db, PageStale)
    else
      var t := db.tasks[c.task];
      match db.runs[t.run].budget
      case None => LimitReply(db, t.run, c.task, t.step, url, Some(MaxDuration))
      case Some(b) =>
        if db.now > Deadline(db.runs[t.run], b) then LimitReply(db, t.run, c.task, t.step, url, Some(MaxDuration))
        else if !Admits(b, url) then LimitReply(db, t.run, c.task, t.step, url, Some(AllowedDomains))
        else
          var reserved := ReserveDomain(db, t.run, b, url.host);
          LimitReply(reserved.db, t.run, c.task, t.step, url, reserved.reply)
  }

  // ----- Cancelling, expiring, retrying ---------------------------------------------------

  /** The task is `root` or hangs below it by parent links, which always lead to older rows. */
  predicate Under(db: Db, root: TaskId, id: TaskId)
    decreases id
  {
    && id in db.tasks
    && (id == root
        || (db.tasks[id].parent.Some? && db.tasks[id].parent.value < id && Under(db, root, db.tasks[id].parent.value)))
  }

  function Subtree(db: Db, root: TaskId): set<TaskId> {
    set id | id in db.tasks && Under(db, root, id)
  }

  /** Every task of `tasks` that is still active gets a final status. */
  function CloseTasks(tasks: map<TaskId, Task>, ids: set<TaskId>, status: TaskStatus): map<TaskId, Task> {
    map id | id in tasks ::
      if id in ids && TaskActive(tasks[id].status) then Release(tasks[id], status) else tasks[id]
  }

  datatype CancelReply = Cancelled | TaskMissing | RunNotActive | TaskNotActive

  function CancelTask(db: Db, id: TaskId): Tx<CancelReply> {
    if id !in db.tasks then Tx(db, TaskMissing)
    else if !RunIsActive(db, db.tasks[id].run) then Tx(db, RunNotActive)
    else if !TaskActive(db.tasks[id].status) then Tx(db, TaskNotActive)
    else
      var ids := Subtree(db, id);
      Tx(db.(tasks := CloseTasks(db.tasks, ids, TaskCancelled),
             attempts := CloseAttempts(db.attempts, ids, AttemptCancelled)), Cancelled)
  }

  function CancelRun(db: Db, run: RunId): Tx<bool> {
    if !RunIsActive(db, run) then Tx(db, false)
    else
      var ids := TasksOf(db, run);
      Tx(db.(runs := db.runs[run := db.runs[run].(status := RunCancelled)],
             tasks := CloseTasks(db.tasks, ids, TaskCancelled),
             attempts := CloseAttempts(db.attempts, ids, AttemptCancelled)), true)
  }

  function ExpireEvents(db: Db, run: RunId): set<LimitEvent> {
    set id | id in ActiveTasksOf(db, run) :: LimitEvent(run, id, db.tasks[id].step, db.tasks[id].input.url, MaxDuration)
  }

  /** Closes every remaining task of a run whose time is up; replies whether there was one. */
  function ExpireRun(db: Db, run: RunId): Tx<bool> {
    if !RunIsActive(db, run) || db.runs[run].budget.None? || db.now < Deadline(db.runs[run], db.runs[run].budget.value)
        then Tx(db, false)
    else
      var ids := TasksOf(db, run);
      Tx(db.(limits := db.limits + ExpireEvents(db, run),
             tasks := CloseTasks(db.tasks, ids, TaskLimited),
             attempts := CloseAttempts(db.attempts, ids, AttemptLimited)),
         ActiveTasksOf(db, run) != {})
  }

  predicate Retryable(status: RunStatus) {
    status == RunFailed || status == RunPartial || status == RunRunning
  }

  /** The new attempt limit, from counts that were read before the transaction. */
  function RetryLimit(count: nat, limit: int): int {
    if count >= limit then count + 5 else limit
  }

  /** The transaction of RetryTask, with the attempt limit computed before it began. */
  function CommitRetry(db: Db, id: TaskId, limit: int): Tx<bool> {
    if id !in db.tasks || db.tasks[id].run !in db.runs then Tx(db, false)
    else
      var t := db.tasks[id];
      var r := db.runs[t.run];
      if !Retryable(r.status) then Tx(db, false)
      else if r.budget.Some? && db.now >= Deadline(r, r.budget.value) then Tx(db, false)
      else if t.status != TaskDeadLetter && t.status != TaskFailed then Tx(db, false)
      else
        Tx(db.(tasks := db.tasks[id := t.(status := TaskQueued, maxAttempts := limit, nextRetry := Some(db.now))],
               runs := db.runs[t.run := r.(status := RunRunning)]), true)
  }

  // ----- Finishing a run --------------------------------------------------------------------

  /** The output of the task's latest succeeded attempt. */
  function LastOutput(db: Db, id: TaskId, no: nat): Output
    decreases no
  {
    if no == 0 then NoOutput
    else
      var k := AttemptKey(id, no);
      if k in db.attempts && db.attempts[k].status == AttemptSucceeded then db.attempts[k].output
      else LastOutput(db, id, no - 1)
  }

  function OutputOf(db: Db, id: TaskId): Output
    requires id in db.tasks
  {
    LastOutput(db, id, db.tasks[id].attemptCount)
  }

  predicate HasStatus(db: Db, run: RunId, status: TaskStatus) {
    exists id :: id in db.tasks && db.tasks[id].run == run && db.tasks[id].status == status
  }

  predicate NamesRecord(o: Output) {
    o.Output? && exists i :: 0 <= i < |o.results| && o.results[i].recordId > 0
  }

  predicate Produced(db: Db, id: TaskId)
    requires id in db.tasks
  {
    db.tasks[id].status == TaskSucceeded && (NamesRecord(OutputOf(db, id))
                                             || (OutputOf(db, id).Output? && OutputOf(db, id).resourceId > 0))
  }

  predicate Observed(db: Db, run: RunId) {
    exists k :: k in db.observations && k.task in db.tasks && db.tasks[k.task].run == run
  }

  predicate ProducedAny(db: Db, run: RunId) {
    exists id :: id in db.tasks && db.tasks[id].run == run && Produced(db, id)
  }

  /** Some page of the run led to a resource or a record, or a record was observed. */
  predicate HasResult(db: Db, run: RunId) {
    Observed(db, run) || ProducedAny(db, run)
  }

  predicate CutShort(db: Db, id: TaskId)
    requires id in db.tasks
  {
    || db.tasks[id].status == TaskLimited
    || (db.tasks[id].status == TaskSucceeded && OutputOf(db, id).Output? && OutputOf(db, id).limited)
  }

  predicate CutShortAny(db: Db, run: RunId) {
    exists id :: id in db.tasks && db.tasks[id].run == run && CutShort(db, id)
  }

  predicate HasLimitEvent(db: Db, run: RunId) {
    exists e :: e in db.limits && e.run == run
  }

  predicate WasLimited(db: Db, run: RunId) {
    CutShortAny(db, run) || HasLimitEvent(db, run)
  }

  predicate HasFailure(db: Db, run: RunId) {
    HasStatus(db, run, TaskFailed) || HasStatus(db, run, TaskDeadLetter)
  }

  predicate IsWorkflowRun(db: Db, run: RunId) {
    exists id :: id in db.tasks && db.tasks[id].run == run && db.tasks[id].kind == Workflow
  }

  /** The verdict on a run all of whose tasks have ended. */
  function FinalStatus(db: Db, run: RunId): RunStatus {
    if IsWorkflowRun(db, run) then
      if HasStatus(db, run, TaskCancelled) then RunCancelled
      else if !HasResult(db, run) then RunFailed
      else if WasLimited(db, run) then RunLimited
      else if HasFailure(db, run) then RunPartial
      else RunSucceeded
    else if HasFailure(db, run) then RunFailed
    else if HasStatus(db, run, TaskCancelled) then RunCancelled
    else RunSucceeded
  }

  function TryFinishRun(db: Db, id: TaskId): Db {
    if id !in db.tasks || !RunIsActive(db, db.tasks[id].run) || ActiveTasksOf(db, db.tasks[id].run) != {} then db
    else
      var run := db.tasks[id].run;
      db.(runs := db.runs[run := db.runs[run].(status := FinalStatus(db, run))])
  }

  // ----- Sweeping ------------------------------------------------------------------------------

  predicate Overdue(db: Db, run: RunId) {
    RunIsActive(db, run) && db.runs[run].budget.Some? && db.now >= Deadline(db.runs[run], db.runs[run].budget.value)
  }

  /** Expired leases of the tasks below `bound` are given back one by one; replies how many there were. */
  function RecoverBelow(db: Db, bound: TaskId): Tx<nat> {
    if bound == 0 then Tx(db, 0)
    else
      var before := RecoverBelow(db, bound - 1);
      var r := RecoverTask(before.db, bound - 1);
      if r.reply then Tx(TryFinishRun(r.db, bound - 1), before.reply + 1) else before
  }

  /** A run whose time is up has its open tasks closed and, if there were any, gets its verdict. */
  function ExpireAndFinish(db: Db, run: RunId): Db {
    var e := ExpireRun(db, run);
    if !e.reply then e.db else e.db.(runs := e.db.runs[run := e.db.runs[run].(status := FinalStatus(e.db, run))])
  }

  function ExpireBelow(db: Db, bound: RunId): Db {
    if bound == 0 then db else ExpireAndFinish(ExpireBelow(db, bound - 1), bound - 1)
  }
}
