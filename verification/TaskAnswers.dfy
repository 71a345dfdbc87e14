/**
 What each transaction of the task protocol answers and writes, said about rows and in the terms of a caller: when
 it answers what, which fields of which rows change, and that nothing else does.
 */
module TaskAnswers {
  import opened Common
  import opened CrawlPolicy
  import opened TaskModel
  import opened TaskSystem
  import opened Ownership
  import opened Protocol
  import opened Fencing
  import opened RunVerdicts
  import TaskStore

  // ----- Shared words -----------------------------------------------------------------------------------

  /** Only the row of this task and the attempts may differ. */
  predicate OnlyTask(o: Db, n: Db, t: TaskId) {
    t in o.tasks && t in n.tasks && n == o.(tasks := o.tasks[t := n.tasks[t]], attempts := n.attempts)
  }

  /** Only the row of this attempt differs, like this. */
  predicate OnlyAttempt(o: Db, n: Db, k: AttemptKey, row: Attempt) {
    k in o.attempts && n.attempts == o.attempts[k := row]
  }

  /** The claim is the task's present one: same worker, same attempt, and the lease still runs. */
  predicate Present(db: Db, c: Claim) {
    && c.task in db.tasks && db.tasks[c.task].status == TaskRunning
    && db.tasks[c.task].owner == c.worker && db.tasks[c.task].attemptCount == c.no
    && db.tasks[c.task].leaseUntil.Some? && db.now < db.tasks[c.task].leaseUntil.value
  }

  predicate Live(db: Db, run: RunId) {
    run in db.runs && (db.runs[run].status == RunQueued || db.runs[run].status == RunRunning)
  }

  function OfRun(db: Db, run: RunId): set<TaskId> {
    set t | t in db.tasks && db.tasks[t].run == run
  }

  /** A run that waited is under way now; nothing else about the runs changes. */
  predicate GetsGoing(o: Db, n: Db, run: RunId) {
    run in o.runs && n.runs == if o.runs[run].status == RunQueued
                               then o.runs[run := o.runs[run].(status := RunRunning)] else o.runs
  }

  // ----- Refusals ---------------------------------------------------------------------------------------

  /** The order in which limits are checked. */
  function Rank(r: Reason): nat {
    match r
    case MaxDuration => 0
    case AllowedDomains => 1
    case MaxDepth => 2
    case MaxTasks => 3
    case MaxDiscoveredPerPage => 4
    case MaxPages => 5
    case MaxDomains => 6
  }

  /** One more child of `parent` would break this limit. */
  predicate ChildBreaks(db: Db, b: Budget, run: RunId, parent: TaskId, step: string, url: PageUrl, r: Reason)
    requires run in db.runs && parent in db.tasks
  {
    match r
    case MaxDuration => db.now > db.runs[run].createdAt + b.maxDurationSeconds
    case AllowedDomains => !Admits(b, url)
    case MaxDepth => db.tasks[parent].depth >= b.maxDepth
    case MaxTasks => |OfRun(db, run)| >= b.maxTasks
    case MaxDiscoveredPerPage =>
      step == "detail" && |set t | t in db.tasks && db.tasks[t].run == run && db.tasks[t].parent == Some(parent)
                                   && db.tasks[t].step == "detail"| >= b.maxDiscoveredPerPage
    case _ => false
  }

  /** A child is refused for the first limit in the order that it would break, and only for that. */
  lemma ChildRefusalIff(db: Db, run: RunId, parent: TaskId, step: string, input: TaskInput, r: Reason)
    requires run in db.runs && parent in db.tasks
    ensures ChildBudgetReason(db, run, parent, step, input) == Some(r) <==>
              && db.runs[run].budget.Some?
              && var b := db.runs[run].budget.value;
              && ChildBreaks(db, b, run, parent, step, input.url, r)
              && forall q :: Rank(q) < Rank(r) ==> !ChildBreaks(db, b, run, parent, step, input.url, q)
  {
    hide Admits;
    if db.runs[run].budget.Some? {
      var b := db.runs[run].budget.value;
      assert OfRun(db, run) == TasksOf(db, run);
      assert (set t | t in db.tasks && db.tasks[t].run == run && db.tasks[t].parent == Some(parent)
                      && db.tasks[t].step == "detail") == DetailsOf(db, run, parent);
      hide TasksOf, DetailsOf, OfRun;
      assert Rank(MaxDuration) == 0 && Rank(AllowedDomains) == 1 && Rank(MaxDepth) == 2 && Rank(MaxTasks) == 3;
      assert Rank(MaxDiscoveredPerPage) == 4;
      forall q | Rank(q) < Rank(r) && ChildBudgetReason(db, run, parent, step, input) == Some(r)
        ensures !ChildBreaks(db, b, run, parent, step, input.url, q)
      {
        match q
        case MaxDuration =>
        case AllowedDomains =>
        case MaxDepth =>
        case MaxTasks =>
        case _ =>
      }
    }
  }

  /** Fetching this page would break this limit. */
  predicate PageBreaks(db: Db, b: Budget, t: TaskId, url: PageUrl, r: Reason)
    requires t in db.tasks && db.tasks[t].run in db.runs
  {
    var row := db.tasks[t];
    match r
    case MaxDuration => db.now > db.runs[row.run].createdAt + b.maxDurationSeconds
    case AllowedDomains => !Admits(b, url)
    case MaxDepth => row.depth > b.maxDepth
    case MaxPages =>
      !row.pageReserved
      && |set u | u in db.tasks && db.tasks[u].run == row.run && db.tasks[u].pageReserved| >= b.maxPages
    case MaxDomains => !row.pageReserved && url.PageUrl? && HostBreaks(db, b, row.run, url.host)
    case _ => false
  }

  predicate HostBreaks(db: Db, b: Budget, run: RunId, host: string) {
    Domain(run, host) !in db.domains && |set d | d in db.domains && d.run == run| >= b.maxDomains
  }

  /** Nothing but an event that this task was refused for this reason. */
  predicate OnlyNotes(o: Db, n: Db, t: TaskId, role: string, url: PageUrl, r: Reason) {
    t in o.tasks && n == o.(limits := o.limits + {LimitEvent(o.tasks[t].run, t, role, url, r)})
  }

  /**
   A page is refused for the first limit in the order that fetching it would break, which is noted; otherwise the
   task has its slot, with the host of the page that it got it for.
   */
  lemma ReservationIff(db: Db, c: Claim, url: PageUrl)
    ensures var r := TaskModel.ReservePage(db, c, url);
            var may := Present(db, c) && Live(db, db.tasks[c.task].run);
            && (r.reply == PageStale <==> !may)
            && (r.reply == NoBudget <==> may && db.runs[db.tasks[c.task].run].budget.None?)
            && (r.reply == PageStale || r.reply == NoBudget ==> r.db == db)
            && (may && db.runs[db.tasks[c.task].run].budget.Some? ==>
                  var b := db.runs[db.tasks[c.task].run].budget.value;
                  && (forall q :: r.reply == PageRefused(q) <==>
                        && PageBreaks(db, b, c.task, url, q)
                        && forall p :: Rank(p) < Rank(q) ==> !PageBreaks(db, b, c.task, url, p))
                  && (r.reply.PageRefused? ==> OnlyNotes(db, r.db, c.task, db.tasks[c.task].step, url, r.reply.reason))
                  && (r.reply == PageAdmitted ==> HasSlot(db, r.db, c.task, url)))
  {
    hide Admits;
    if Present(db, c) && Live(db, db.tasks[c.task].run) && db.runs[db.tasks[c.task].run].budget.Some? {
      ReservationOrder(db, c, url);
      ReservationWrites(db, c, url);
    }
  }

  lemma ReservationWrites(db: Db, c: Claim, url: PageUrl)
    requires Present(db, c) && Live(db, db.tasks[c.task].run)
    ensures var r := TaskModel.ReservePage(db, c, url);
            && (r.reply.PageRefused? ==> OnlyNotes(db, r.db, c.task, db.tasks[c.task].step, url, r.reply.reason))
            && (r.reply == PageAdmitted ==> HasSlot(db, r.db, c.task, url))
  {
    hide PagesOf, DomainsOf;
    var run := db.tasks[c.task].run;
    assert url.PageUrl? && Domain(run, url.host) in db.domains ==> db.domains + {Domain(run, url.host)} == db.domains;
  }

  lemma ReservationOrder(db: Db, c: Claim, url: PageUrl)
    requires Present(db, c) && Live(db, db.tasks[c.task].run)
    requires db.runs[db.tasks[c.task].run].budget.Some?
    ensures var r, b := TaskModel.ReservePage(db, c, url), db.runs[db.tasks[c.task].run].budget.value;
            && (forall q :: r.reply == PageRefused(q) <==>
                  && PageBreaks(db, b, c.task, url, q)
                  && forall p :: Rank(p) < Rank(q) ==> !PageBreaks(db, b, c.task, url, p))
  {
    var r, run := TaskModel.ReservePage(db, c, url), db.tasks[c.task].run;
    var b := db.runs[run].budget.value;
    assert (set u | u in db.tasks && db.tasks[u].run == run && db.tasks[u].pageReserved) == PagesOf(db, run);
    assert (set d | d in db.domains && d.run == run) == DomainsOf(db, run);
    assert url.Unparsable? ==> !Admits(b, url);
    hide PagesOf, DomainsOf, Admits;
    assert Rank(MaxDuration) == 0 && Rank(AllowedDomains) == 1 && Rank(MaxDepth) == 2 && Rank(MaxPages) == 5;
    assert Rank(MaxDomains) == 6;
    forall q ensures r.reply == PageRefused(q) <==>
                  && PageBreaks(db, b, c.task, url, q)
                  && forall p :: Rank(p) < Rank(q) ==> !PageBreaks(db, b, c.task, url, p)
    {
      forall p | Rank(p) < Rank(q) && r.reply == PageRefused(q) ensures !PageBreaks(db, b, c.task, url, p) {
        match p
        case MaxDuration =>
        case AllowedDomains =>
        case MaxDepth =>
        case MaxPages =>
        case _ =>
      }
    }
  }

  /** The task keeps the slot it has or gets one for this host. */
  predicate HasSlot(o: Db, n: Db, t: TaskId, url: PageUrl) {
    && t in o.tasks && t in n.tasks && n.tasks[t].pageReserved
    && (if o.tasks[t].pageReserved then n == o
        else url.PageUrl? && n == o.(tasks := o.tasks[t := o.tasks[t].(pageReserved := true, pageHost := url.host)],
                                     domains := o.domains + {Domain(o.tasks[t].run, url.host)}))
  }

  /** A request to this address would break this limit. */
  predicate RequestBreaks(db: Db, t: TaskId, url: PageUrl, r: Reason)
    requires t in db.tasks && db.tasks[t].run in db.runs
  {
    match db.runs[db.tasks[t].run].budget
    case None => r == MaxDuration
    case Some(b) =>
      match r
      case MaxDuration => db.now > db.runs[db.tasks[t].run].createdAt + b.maxDurationSeconds
      case AllowedDomains => !Admits(b, url)
      case MaxDomains => url.PageUrl? && HostBreaks(db, b, db.tasks[t].run, url.host)
      case _ => false
  }

  /** A redirect is refused likewise, whatever its task has reserved; otherwise its host is on the list of the run. */
  lemma RedirectIff(db: Db, c: Claim, url: PageUrl)
    ensures var r := TaskModel.CheckPageUrl(db, c, url);
            var may := Present(db, c) && Live(db, db.tasks[c.task].run);
            && (r.reply == PageStale <==> !may)
            && (!may ==> r.db == db)
            && (may ==>
                  && (forall q :: r.reply == PageRefused(q) <==>
                        && RequestBreaks(db, c.task, url, q)
                        && forall p :: Rank(p) < Rank(q) ==> !RequestBreaks(db, c.task, url, p))
                  && (r.reply.PageRefused? ==> OnlyNotes(db, r.db, c.task, db.tasks[c.task].step, url, r.reply.reason))
                  && (r.reply == PageAdmitted ==>
                        url.PageUrl? && r.db == db.(domains := db.domains + {Domain(db.tasks[c.task].run, url.host)}))
                  && r.reply != NoBudget)
  {
    hide Admits;
    if Present(db, c) && Live(db, db.tasks[c.task].run) {
      RedirectOrder(db, c, url);
    }
  }

  lemma RedirectOrder(db: Db, c: Claim, url: PageUrl)
    requires Present(db, c) && Live(db, db.tasks[c.task].run)
    ensures var r := TaskModel.CheckPageUrl(db, c, url);
            && (forall q :: r.reply == PageRefused(q) <==>
                  && RequestBreaks(db, c.task, url, q)
                  && forall p :: Rank(p) < Rank(q) ==> !RequestBreaks(db, c.task, url, p))
            && (r.reply.PageRefused? ==> OnlyNotes(db, r.db, c.task, db.tasks[c.task].step, url, r.reply.reason))
            && (r.reply == PageAdmitted ==>
                  url.PageUrl? && r.db == db.(domains := db.domains + {Domain(db.tasks[c.task].run, url.host)}))
  {
    var r, run := TaskModel.CheckPageUrl(db, c, url), db.tasks[c.task].run;
    assert (set d | d in db.domains && d.run == run) == DomainsOf(db, run);
    assert db.runs[run].budget.Some? && url.Unparsable? ==> !Admits(db.runs[run].budget.value, url);
    hide DomainsOf, Admits;
    assert Rank(MaxDuration) == 0 && Rank(AllowedDomains) == 1 && Rank(MaxDomains) == 6;
    assert url.PageUrl? && Domain(run, url.host) in db.domains ==> db.domains + {Domain(run, url.host)} == db.domains;
    forall q ensures r.reply == PageRefused(q) <==>
                  && RequestBreaks(db, c.task, url, q)
                  && forall p :: Rank(p) < Rank(q) ==> !RequestBreaks(db, c.task, url, p)
    {
      forall p | Rank(p) < Rank(q) && r.reply == PageRefused(q) ensures !RequestBreaks(db, c.task, url, p) {
        match p
        case MaxDuration =>
        case AllowedDomains =>
        case _ =>
      }
    }
  }

  // ----- Creating ---------------------------------------------------------------------------------------

  /** The task does the requested work: same run and step, and the same address or, without one, the same input. */
  predicate DoesWork(row: Task, run: RunId, step: string, input: TaskInput) {
    row.run == run && row.kind == Workflow && row.step == step
        && (row.input.url == input.url && (input.url == EMPTY_URL ==> row.input == input))
  }

  predicate WorkExists(db: Db, run: RunId, step: string, input: TaskInput) {
    exists t :: t in db.tasks && DoesWork(db.tasks[t], run, step, input)
  }

  /** A task that waits for its first attempt. */
  function Waiting(db: Db, run: RunId, parent: Option<TaskId>, step: string, kind: TaskKind, input: TaskInput,
                   depth: int): Task {
    Task(run, parent, step, kind, input, depth, db.now, TaskQueued, 0, 5, None, "", None, false, "", None)
  }

  /** The next task is this one, and its run is under way. */
  predicate Adds(o: Db, n: Db, row: Task) {
    && o.nextTask !in o.tasks && GetsGoing(o, n, row.run)
    && n == o.(tasks := o.tasks[o.nextTask := row], nextTask := o.nextTask + 1, runs := n.runs)
  }

  /**
   A worker asks for a child of its task.  It is told that its run is over, else that it is no longer in charge, else
   which older task does the work, else which limit forbids the child; else the child is added one level deeper.
   */
  lemma ChildIff(db: Db, c: Claim, step: string, input: TaskInput)
    requires TaskStore.IdsInUse(db)
    ensures var r := TaskModel.CreateChild(db, c, step, input);
            && (r.reply == RunInactive <==> c.task in db.tasks && !Live(db, db.tasks[c.task].run))
            && (r.reply == StaleAttempt <==> c.task !in db.tasks || (Live(db, db.tasks[c.task].run) && !Present(db, c)))
            && (r.reply == RunInactive || r.reply == StaleAttempt || r.reply.TaskExists? ==> r.db == db)
            && (Present(db, c) && Live(db, db.tasks[c.task].run) ==>
                  var run := db.tasks[c.task].run;
                  && (r.reply.TaskExists? <==> WorkExists(db, run, step, input))
                  && (r.reply.TaskExists? ==>
                        && r.reply.id in db.tasks && DoesWork(db.tasks[r.reply.id], run, step, input)
                        && forall t :: t in db.tasks && DoesWork(db.tasks[t], run, step, input) ==> r.reply.id <= t)
                  && (forall q :: r.reply == BudgetExceeded(q) <==>
                        !WorkExists(db, run, step, input) && ChildBudgetReason(db, run, c.task, step, input) == Some(q))
                  && (r.reply.BudgetExceeded? ==> OnlyNotes(db, r.db, c.task, step, input.url, r.reply.reason))
                  && (r.reply.TaskCreated? ==>
                        var depth := if db.runs[run].budget.Some? then db.tasks[c.task].depth + 1 else 0;
                        r.reply.id == db.nextTask
                        && Adds(db, r.db, Waiting(db, run, Some(c.task), step, Workflow, input, depth))))
  {
    hide ChildBudgetReason;
    if c.task in db.tasks {
      var run := db.tasks[c.task].run;
      var found := FindWork(db, run, step, input, 0);
      assert forall t :: t in db.tasks ==> (SameWork(db.tasks[t], run, step, input) <==>
                                            DoesWork(db.tasks[t], run, step, input));
      assert found.Some? <==> WorkExists(db, run, step, input);
      hide FindWork;
    }
  }

  /** A started run waits with its budget and one waiting root task. */
  lemma StartIs(db: Db, budget: Option<Budget>, input: TaskInput)
    ensures var r := TaskModel.StartRun(db, budget, input);
            r.reply == db.nextRun
            && StartsWith(db, r.db, budget, Waiting(db, db.nextRun, None, "trigger", Workflow, input, 0))
  {
  }

  /** Nothing new but a waiting run with this budget and this task. */
  predicate StartsWith(o: Db, n: Db, budget: Option<Budget>, root: Task) {
    n == o.(runs := o.runs[o.nextRun := Run(RunQueued, budget, o.now)], nextRun := o.nextRun + 1,
            tasks := o.tasks[o.nextTask := root], nextTask := o.nextTask + 1)
  }

  predicate RootOf(db: Db, run: RunId, t: TaskId) {
    t in db.tasks && db.tasks[t].run == run && db.tasks[t].parent.None?
  }

  lemma {:induction false} FirstRoot(db: Db, run: RunId, from: TaskId)
    requires TaskStore.IdsInUse(db)
    ensures var found := FindRoot(db, run, from);
            && (found.None? <==> forall t :: from <= t ==> !RootOf(db, run, t))
            && (found.Some? ==> from <= found.value && RootOf(db, run, found.value)
                                && forall t :: from <= t < found.value ==> !RootOf(db, run, t))
    decreases db.nextTask - from
  {
    if from < db.nextTask {
      FirstRoot(db, run, from + 1);
      assert RootOf(db, run, from) <==> FindRoot(db, run, from) == Some(from);
    } else {
      assert forall t: TaskId :: RootOf(db, run, t) ==> t < db.nextTask;
    }
  }

  /** A rerun repeats the oldest root task of a run under the budget of that run; without a root there is none. */
  lemma RerunIff(db: Db, run: RunId)
    requires TaskStore.IdsInUse(db)
    ensures var r := TaskModel.RerunRun(db, run);
            && (r.reply.None? <==> run !in db.runs || forall t :: !RootOf(db, run, t))
            && (r.reply.None? ==> r.db == db)
            && (r.reply.Some? ==> r.reply.value == db.nextRun && exists t ::
                  && RootOf(db, run, t) && (forall u :: RootOf(db, run, u) ==> t <= u)
                  && var root := db.tasks[t];
                  StartsWith(db, r.db, db.runs[run].budget,
                             Waiting(db, db.nextRun, None, root.step, root.kind, root.input, 0)))
  {
    FirstRoot(db, run, 0);
    hide FindRoot;
  }

  // ----- Claims and leases --------------------------------------------------------------------------------

  /** The task waits and its time has come, or its worker has lost the lease; it has attempts left and a live run. */
  predicate CanBeClaimed(db: Db, t: TaskId, kind: Option<TaskKind>) {
    t in db.tasks
    && var row := db.tasks[t];
    && (|| (row.status == TaskQueued && (row.nextRetry.Some? ==> row.nextRetry.value <= db.now))
        || Lost(db, t))
    && AttemptsLeft(row) && Live(db, row.run) && (kind.Some? ==> row.kind == kind.value)
  }

  /**
   A claim succeeds exactly then.  The worker holds the lease for the time it asks for, five minutes if it asks for
   none, under the next attempt number, and the attempt before, if it still runs, is interrupted.
   */
  lemma ClaimIff(db: Db, t: TaskId, worker: string, lease: int, kind: Option<TaskKind>)
    requires DbInv(db)
    ensures var r := TaskModel.ClaimTask(db, t, worker, lease, kind);
            && (r.reply.Some? <==> CanBeClaimed(db, t, kind))
            && (r.reply.None? ==> r.db == db)
            && (r.reply.Some? ==>
                  var no := db.tasks[t].attemptCount + 1;
                  && r.reply == Some(Claim(t, worker, no)) && Present(r.db, Claim(t, worker, no))
                  && t in r.db.tasks
                  && r.db.tasks[t] == db.tasks[t].(status := TaskRunning, attemptCount := no, owner := worker,
                                          leaseUntil := Some(db.now + if lease > 0 then lease else 300))
                  && r.db == db.(tasks := db.tasks[t := r.db.tasks[t]], attempts := r.db.attempts, runs := r.db.runs)
                  && GetsGoing(db, r.db, db.tasks[t].run)
                  && Begins(db.attempts, r.db.attempts, AttemptKey(t, no), worker))
  {
    hide DbInv, Begins, CloseAttempts;
    NextNumberIsFree(db, t);
    if CanBeClaimed(db, t, kind) {
      assert Claimable(db, t, kind);
      var k := AttemptKey(t, db.tasks[t].attemptCount + 1);
      BeginsAttempt(db.attempts, k, worker);
    }
  }

  lemma NextNumberIsFree(db: Db, t: TaskId)
    requires DbInv(db)
    ensures t in db.tasks ==> AttemptKey(t, db.tasks[t].attemptCount + 1) !in db.attempts
  {
    if t in db.tasks {
      assert Owned(db, t);
    }
  }

  lemma BeginsAttempt(o: map<AttemptKey, Attempt>, k: AttemptKey, worker: string)
    requires k !in o
    ensures Begins(o, CloseAttempts(o, {k.task}, AttemptInterrupted)[k := Attempt(worker, AttemptRunning, NoOutput)], k,
                   worker)
  {
  }

  /** A new running attempt; another running attempt of its task is interrupted. */
  ghost predicate Begins(o: map<AttemptKey, Attempt>, n: map<AttemptKey, Attempt>, k: AttemptKey, worker: string) {
    && k !in o && n.Keys == o.Keys + {k} && n[k] == Attempt(worker, AttemptRunning, NoOutput)
    && EndsAttempts(o, n - {k}, k.task, AttemptInterrupted)
  }

  /** The present worker extends its lease from now on by the time it asks for; nobody else does. */
  lemma RenewalIff(db: Db, c: Claim, lease: int)
    ensures var r := TaskModel.RenewLease(db, c, lease);
            && (r.reply <==> lease > 0 && Present(db, c))
            && (!r.reply ==> r.db == db)
            && (r.reply ==>
                  OnlyTask(db, r.db, c.task) && r.db.attempts == db.attempts
                  && r.db.tasks[c.task] == db.tasks[c.task].(leaseUntil := Some(db.now + lease)))
  {
  }

  // ----- Ending an attempt -------------------------------------------------------------------------------

  /** The present worker's attempt runs and may be ended by it. */
  predicate InCharge(db: Db, c: Claim) {
    Present(db, c) && AttemptKey(c.task, c.no) in db.attempts
        && db.attempts[AttemptKey(c.task, c.no)].status == AttemptRunning
  }

  /** Completing ends task and attempt alike, and keeps the output. */
  lemma CompletionIff(db: Db, c: Claim, output: Output, status: TaskStatus)
    requires status == TaskSucceeded || status == TaskLimited
    ensures var r := TaskModel.CommitComplete(db, c, output, status);
            && (r.reply <==> InCharge(db, c))
            && (!r.reply ==> r.db == db)
            && (r.reply ==>
                  && OnlyTask(db, r.db, c.task)
                  && r.db.tasks[c.task] == db.tasks[c.task].(status := status, owner := "", leaseUntil := None)
                  && OnlyAttempt(db, r.db, AttemptKey(c.task, c.no),
                       Attempt(db.attempts[AttemptKey(c.task, c.no)].worker,
                               if status == TaskLimited then AttemptLimited else AttemptSucceeded, output)))
  {
  }

  /** A failure gives the task back for the announced time, or gives it up; the attempt has failed either way. */
  lemma FailureIff(db: Db, c: Claim, willRetry: bool, retryAt: Time)
    ensures var r := TaskModel.CommitFail(db, c, willRetry, retryAt);
            && (r.reply <==> InCharge(db, c))
            && (!r.reply ==> r.db == db)
            && (r.reply ==>
                  && OnlyTask(db, r.db, c.task)
                  && var row := r.db.tasks[c.task];
                  && row == db.tasks[c.task].(status := row.status, nextRetry := row.nextRetry, owner := "",
                                              leaseUntil := None)
                  && (willRetry ==> row.status == TaskQueued && row.nextRetry == Some(retryAt))
                  && (!willRetry ==> row.status == TaskDeadLetter && row.nextRetry == db.tasks[c.task].nextRetry)
                  && OnlyAttempt(db, r.db, AttemptKey(c.task, c.no),
                       db.attempts[AttemptKey(c.task, c.no)].(status := AttemptFailed)))
  {
  }

  /**
   In any run of the system a failure that commits gives its task back to the queue, for the announced time, if and
   only if it is retryable and the row itself has attempts left, and gives it up otherwise.
   */
  lemma CommittedFailureIff(acts: seq<Action>, p: ProcId, retryAt: Time)
    requires At(Exec(Init(), acts), p).Failing?
    ensures var s := Exec(Init(), acts);
            var n, pc := Next(s, CommitFail(p, retryAt)), At(s, p);
            var t := pc.claim.task;
            n.effects != s.effects ==>
              && OnlyTask(s.db, n.db, t)
              && (n.db.tasks[t].status == TaskQueued <==> pc.retryable && AttemptsLeft(s.db.tasks[t]))
              && (n.db.tasks[t].status == TaskDeadLetter <==> !(pc.retryable && AttemptsLeft(s.db.tasks[t])))
              && (n.db.tasks[t].status == TaskQueued ==> n.db.tasks[t].nextRetry == Some(retryAt))
              && n.db.tasks[t].owner == "" && n.db.tasks[t].leaseUntil.None?
              && AttemptKey(t, pc.claim.no) in s.db.attempts
              && OnlyAttempt(s.db, n.db, AttemptKey(t, pc.claim.no),
                   s.db.attempts[AttemptKey(t, pc.claim.no)].(status := AttemptFailed))
  {
    var s := Exec(Init(), acts);
    RetryDecisionIsCurrent(acts, p, retryAt);
    FailureIff(s.db, At(s, p).claim, WillRetry(At(s, p)), retryAt);
    FailStep(s, p, retryAt);
    hide Exec, Next, TaskModel.CommitFail, OnlyTask, OnlyAttempt;
  }

  lemma FailStep(s: Sys, p: ProcId, retryAt: Time)
    requires At(s, p).Failing?
    ensures var n, r := Next(s, CommitFail(p, retryAt)),
                TaskModel.CommitFail(s.db, At(s, p).claim, WillRetry(At(s, p)), retryAt);
            n.db == r.db && (n.effects != s.effects <==> r.reply)
  {
    var pc := At(s, p);
    assert |s.effects + [Effect(pc.claim.task, pc.claim.no, AttemptEnded)]| != |s.effects|;
  }

  function Power(n: nat): nat {
    if n == 0 then 1 else 2 * Power(n - 1)
  }

  /** The delay doubles with each attempt from two seconds up to 256, and random adds at most half of it. */
  lemma BackoffDoubles(attempt: int, random: nat)
    ensures var n := if attempt < 1 then 1 else if attempt > 8 then 8 else attempt;
            && TaskStore.BackoffBase(attempt) == Power(n)
            && Power(n) <= TaskStore.BackoffDelay(attempt, random) <= Power(n) + Power(n) / 2
  {
    assert Power(1) == 2 && Power(2) == 4 && Power(3) == 8 && Power(4) == 16;
    assert Power(5) == 32 && Power(6) == 64 && Power(7) == 128 && Power(8) == 256;
  }

  // ----- Writes under the fence ----------------------------------------------------------------------------

  /** The present worker of a live run points its task at the stored document; nobody else does. */
  lemma DocumentIff(db: Db, c: Claim, document: nat)
    ensures var r := TaskModel.SaveDocument(db, c, document);
            && (r.reply <==> Present(db, c) && Live(db, db.tasks[c.task].run))
            && (!r.reply ==> r.db == db)
            && (r.reply ==>
                  OnlyTask(db, r.db, c.task) && r.db.attempts == db.attempts
                  && r.db.tasks[c.task] == db.tasks[c.task].(document := Some(document)))
  {
  }

  lemma {:induction false} ObservesEach(seen: map<ItemKey, Decision>, task: TaskId, decisions: seq<Decision>,
                                        k: ItemKey)
    ensures var n := Observe(seen, task, decisions);
            && (k in n <==> k in seen || (k.task == task && k.item < |decisions|))
            && (k in n ==> n[k] == if k in seen then seen[k] else decisions[k.item])
  {
    if decisions != [] {
      ObservesEach(seen, task, decisions[..|decisions| - 1], k);
      ObservesEach(seen, task, decisions[..|decisions| - 1], ItemKey(task, |decisions| - 1));
    }
  }

  /** A committed batch is observed item by item; what was observed before stays. */
  lemma RecordsIff(db: Db, c: Claim, decisions: seq<Decision>, k: ItemKey)
    ensures var r := TaskModel.SaveRecords(db, c, decisions);
            && (r.reply <==> Present(db, c) && Live(db, db.tasks[c.task].run))
            && (!r.reply ==> r.db == db)
            && r.db == db.(observations := r.db.observations)
            && (r.reply ==>
                  && (k in r.db.observations <==> k in db.observations || (k.task == c.task && k.item < |decisions|))
                  && (k in r.db.observations ==>
                        r.db.observations[k] == if k in db.observations then db.observations[k] else decisions[k.item]))
  {
    ObservesEach(db.observations, c.task, decisions, k);
  }

  // ----- Cancelling, expiring, retrying ----------------------------------------------------------------------

  /** The open tasks among these end like this, with their running attempts; other rows stay. */
  ghost predicate Ends(o: Db, n: Db, ids: set<TaskId>, status: TaskStatus, attempt: AttemptStatus) {
    && n.tasks.Keys == o.tasks.Keys && n.attempts.Keys == o.attempts.Keys
    && (forall t :: t in o.tasks ==>
          n.tasks[t] == if t in ids && Open(o.tasks[t])
                        then o.tasks[t].(status := status, owner := "", leaseUntil := None) else o.tasks[t])
    && (forall k :: k in o.attempts ==>
          n.attempts[k] == if k.task in ids && o.attempts[k].status == AttemptRunning
                           then o.attempts[k].(status := attempt) else o.attempts[k])
    && n == o.(tasks := n.tasks, attempts := n.attempts, runs := n.runs, limits := n.limits)
  }

  /** A path of parent links from the root down to the task. */
  ghost predicate Path(db: Db, path: seq<TaskId>, root: TaskId, t: TaskId) {
    && path != [] && path[0] == root && path[|path| - 1] == t
    && (forall i :: 0 <= i < |path| ==> path[i] in db.tasks)
    && forall i :: 0 < i < |path| ==> path[i - 1] < path[i] && db.tasks[path[i]].parent == Some(path[i - 1])
  }

  lemma {:induction false} PathOfUnder(db: Db, root: TaskId, t: TaskId) returns (path: seq<TaskId>)
    requires Under(db, root, t)
    ensures Path(db, path, root, t)
    decreases t
  {
    if t == root {
      path := [t];
    } else {
      var up := PathOfUnder(db, root, db.tasks[t].parent.value);
      path := up + [t];
    }
  }

  lemma {:induction false} UnderOfPath(db: Db, path: seq<TaskId>, root: TaskId, t: TaskId)
    requires Path(db, path, root, t)
    ensures Under(db, root, t)
    decreases |path|
  {
    if |path| > 1 {
      UnderOfPath(db, path[..|path| - 1], root, path[|path| - 2]);
    }
  }

  lemma SubtreeIsPaths(db: Db, root: TaskId, t: TaskId)
    ensures t in Subtree(db, root) <==> exists path :: Path(db, path, root, t)
  {
    if t in Subtree(db, root) {
      var path := PathOfUnder(db, root, t);
    }
    if path :| Path(db, path, root, t) {
      UnderOfPath(db, path, root, t);
    }
  }

  /** A cancel ends the task and whatever hangs below it, or says what stands in the way. */
  lemma CancelIff(db: Db, id: TaskId)
    ensures var r := TaskModel.CancelTask(db, id);
            && (r.reply == TaskMissing <==> id !in db.tasks)
            && (r.reply == RunNotActive <==> id in db.tasks && !Live(db, db.tasks[id].run))
            && (r.reply == TaskNotActive <==> id in db.tasks && Live(db, db.tasks[id].run) && !Open(db.tasks[id]))
            && (r.reply != Cancelled ==> r.db == db)
            && (r.reply == Cancelled ==>
                  && Ends(db, r.db, Subtree(db, id), TaskCancelled, AttemptCancelled)
                  && r.db.runs == db.runs && r.db.limits == db.limits)
  {
    hide Under;
  }

  /** A live run is cancelled with its open tasks; another one is left alone. */
  lemma CancelRunIff(db: Db, run: RunId)
    ensures var r := TaskModel.CancelRun(db, run);
            && (r.reply <==> Live(db, run))
            && (!r.reply ==> r.db == db)
            && (r.reply ==>
                  && Ends(db, r.db, OfRun(db, run), TaskCancelled, AttemptCancelled)
                  && r.db.limits == db.limits
                  && r.db.runs == db.runs[run := db.runs[run].(status := RunCancelled)])
  {
    assert TasksOf(db, run) == OfRun(db, run);
    hide TasksOf;
  }

  /** The event of an open task of the run that is out of time. */
  predicate IsExpiry(db: Db, run: RunId, e: LimitEvent) {
    e.task in db.tasks && db.tasks[e.task].run == run && Open(db.tasks[e.task])
        && e == LimitEvent(run, e.task, db.tasks[e.task].step, db.tasks[e.task].input.url, MaxDuration)
  }

  /** A run whose time is up has its open tasks limited with one event each, and keeps its status for the look. */
  lemma ExpiryIff(db: Db, run: RunId)
    ensures var r := TaskModel.ExpireRun(db, run);
            && (!TimeIsUp(db, run) ==> r == Tx(db, false))
            && (TimeIsUp(db, run) ==>
                  && (r.reply <==> exists t :: t in db.tasks && db.tasks[t].run == run && Open(db.tasks[t]))
                  && Ends(db, r.db, OfRun(db, run), TaskLimited, AttemptLimited)
                  && r.db.runs == db.runs
                  && forall e :: e in r.db.limits <==> e in db.limits || IsExpiry(db, run, e))
  {
    assert TasksOf(db, run) == OfRun(db, run);
    forall t: TaskId ensures t in ActiveTasksOf(db, run) <==>
                       t in db.tasks && db.tasks[t].run == run && Open(db.tasks[t]) {
    }
    hide TasksOf;
  }

  /**
   A retry commits exactly for a failed task of a run that is failed, partial or running and has time left: the task
   waits for its turn now, under the limit it was given, and the run is under way again.
   */
  lemma RetryIff(db: Db, t: TaskId, limit: int)
    ensures var r := TaskModel.CommitRetry(db, t, limit);
            && (r.reply <==>
                  && t in db.tasks && db.tasks[t].status in {TaskFailed, TaskDeadLetter} && db.tasks[t].run in db.runs
                  && var run := db.runs[db.tasks[t].run];
                  && run.status in {RunFailed, RunPartial, RunRunning}
                  && (run.budget.Some? ==> db.now < run.createdAt + run.budget.value.maxDurationSeconds))
            && (!r.reply ==> r.db == db)
            && (r.reply ==>
                  var run := db.tasks[t].run;
                  r.db == db.(tasks := db.tasks[t := db.tasks[t].(status := TaskQueued, maxAttempts := limit,
                                                                  nextRetry := Some(db.now))],
                              runs := db.runs[run := db.runs[run].(status := RunRunning)]))
  {
  }

  /** The limit of a retry: as before while attempts are left, otherwise five more than were made. */
  lemma RetryLimitIs(row: Task)
    ensures RetryLimit(row.attemptCount, row.maxAttempts) == if AttemptsLeft(row) then row.maxAttempts
                                                             else row.attemptCount + 5
  {
  }
}
