/**
 How often work is attempted.  A task is never attempted more often than its limit and never waits
 in the queue without an attempt left, as long as every retry decides on a current reading; a retry that
 decides on an old one can leave a task queued that nobody can ever claim.  In any case a run is worked at most
 five times its task limit, and five times more for each retry.
 */
module BoundedWork {
  import opened Common
  import opened CrawlPolicy
  import opened TaskModel
  import opened TaskSystem
  import opened Ownership
  import opened Protocol
  import opened BudgetSafety

  /** Attempts stay within the limit, and a queued task has one left. */
  predicate RowBounded(t: Task) {
    t.attemptCount <= t.maxAttempts && (t.status == TaskQueued ==> t.attemptCount < t.maxAttempts)
  }

  ghost predicate AllBounded(db: Db) {
    forall t :: t in db.tasks ==> RowBounded(db.tasks[t])
  }

  /** A retry that commits has a limit that still exceeds the attempts made meanwhile. */
  predicate Timely(s: Sys, a: Action) {
    a.CommitRetry? && RetryCommits(s, a.p) ==>
          s.db.tasks[At(s, a.p).task].attemptCount < RetryLimit(At(s, a.p).count, At(s, a.p).limit)
  }

  /** Exactly when a retry that commits leaves its task with an attempt. */
  lemma RetryLeavesAnAttemptIff(s: Sys, p: ProcId)
    requires RetryCommits(s, p)
    ensures var n := Next(s, CommitRetry(p)).db;
            && n.tasks[At(s, p).task].status == TaskQueued
            && (RowBounded(n.tasks[At(s, p).task]) <==> Timely(s, CommitRetry(p)))
  {
  }

  /** Giving a task back to the queue happens only while it has attempts left. */
  lemma RequeueHasAttemptsLeft(s: Sys, a: Action, t: TaskId)
    requires Inv(s) && t in s.db.tasks && s.db.tasks[t].status == TaskRunning
    requires t in Next(s, a).db.tasks && Next(s, a).db.tasks[t].status == TaskQueued
    ensures s.db.tasks[t].attemptCount < s.db.tasks[t].maxAttempts
  {
    hide Next, Inv;
    if a.CommitFail? {
      FailRequeues(s, a.p, a.retryAt, t);
    } else if a.RecoverTask? {
      RecoverRequeues(s, a.p, a.id, t);
    } else {
      OthersRequeueNothing(s, a, t);
    }
  }

  lemma FailRequeues(s: Sys, p: ProcId, retryAt: Time, t: TaskId)
    requires Inv(s) && t in s.db.tasks && s.db.tasks[t].status == TaskRunning
    requires t in Next(s, CommitFail(p, retryAt)).db.tasks
    requires Next(s, CommitFail(p, retryAt)).db.tasks[t].status == TaskQueued
    ensures s.db.tasks[t].attemptCount < s.db.tasks[t].maxAttempts
  {
    hide DbInv, AttemptLooksActive;
    assert PcGrounded(s.db, At(s, p));
    hide Inv, Holds;
  }

  lemma RecoverRequeues(s: Sys, p: ProcId, id: TaskId, t: TaskId)
    requires t in s.db.tasks && s.db.tasks[t].status == TaskRunning
    requires t in Next(s, RecoverTask(p, id)).db.tasks && Next(s, RecoverTask(p, id)).db.tasks[t].status == TaskQueued
    ensures s.db.tasks[t].attemptCount < s.db.tasks[t].maxAttempts
  {
  }

  lemma OthersRequeueNothing(s: Sys, a: Action, t: TaskId)
    requires Inv(s) && t in s.db.tasks && s.db.tasks[t].status == TaskRunning && !a.CommitFail? && !a.RecoverTask?
    ensures t in Next(s, a).db.tasks ==> Next(s, a).db.tasks[t].status != TaskQueued
  {
    hide Next, Inv;
    if a.ReadForComplete? || a.ReadTaskForFail? || a.ReadAttemptForFail? || a.ReadForRetry? || a.Crash? {
      ReadingChangesNothing(s, a);
    } else if a.CancelTask? || a.CancelRun? || a.ExpireRun? {
      ClosingRequeuesNothing(s, a, t);
    } else if a.CommitComplete? || a.CommitRetry? {
      EndingRequeuesNothing(s, a, t);
    } else if a.ClaimTask? || a.Tick? || a.RecordLimit? || a.Finish? || a.RenewLease? {
      SingleRequeuesNothing(s, a, t);
    } else if a.StartRun? || a.RerunRun? || a.CreateChild? {
      InsertRequeuesNothing(s, a, t);
    } else {
      KeptRequeuesNothing(s, a, t);
    }
  }

  lemma ClosingRequeuesNothing(s: Sys, a: Action, t: TaskId)
    requires t in s.db.tasks && s.db.tasks[t].status == TaskRunning && (a.CancelTask? || a.CancelRun? || a.ExpireRun?)
    ensures t in Next(s, a).db.tasks ==> Next(s, a).db.tasks[t].status != TaskQueued
  {
  }

  lemma EndingRequeuesNothing(s: Sys, a: Action, t: TaskId)
    requires Inv(s) && t in s.db.tasks && s.db.tasks[t].status == TaskRunning && (a.CommitComplete? || a.CommitRetry?)
    ensures t in Next(s, a).db.tasks ==> Next(s, a).db.tasks[t].status != TaskQueued
  {
    hide Inv;
    InvImpliesOrder(s);
  }

  lemma SingleRequeuesNothing(s: Sys, a: Action, t: TaskId)
    requires t in s.db.tasks && s.db.tasks[t].status == TaskRunning
    requires a.ClaimTask? || a.Tick? || a.RecordLimit? || a.Finish? || a.RenewLease?
    ensures t in Next(s, a).db.tasks ==> Next(s, a).db.tasks[t].status != TaskQueued
  {
  }

  lemma InsertRequeuesNothing(s: Sys, a: Action, t: TaskId)
    requires Inv(s) && t in s.db.tasks && s.db.tasks[t].status == TaskRunning
    requires a.StartRun? || a.RerunRun? || a.CreateChild?
    ensures t in Next(s, a).db.tasks ==> Next(s, a).db.tasks[t].status != TaskQueued
  {
    InvImpliesOrder(s);
    hide Next, Inv;
    if a.CreateChild? {
      ChildRequeuesNothing(s, a.claim, a.step, a.input, t);
    } else {
      RootRequeuesNothing(s, a, t);
    }
  }

  lemma ChildRequeuesNothing(s: Sys, c: Claim, step: string, input: TaskInput, t: TaskId)
    requires IdsFresh(s.db) && t in s.db.tasks && s.db.tasks[t].status == TaskRunning
    ensures var n := Next(s, Action.CreateChild(c, step, input)).db.tasks; t in n ==> n[t].status != TaskQueued
  {
    hide Next, TaskModel.CreateChild, DbMove;
    ChildStep(s, c, step, input);
    CreateChildMoves(s.db, c, step, input);
  }

  lemma RootRequeuesNothing(s: Sys, a: Action, t: TaskId)
    requires IdsFresh(s.db) && t in s.db.tasks && s.db.tasks[t].status == TaskRunning && (a.StartRun? || a.RerunRun?)
    ensures t in Next(s, a).db.tasks ==> Next(s, a).db.tasks[t].status != TaskQueued
  {
    hide FindRoot;
  }

  lemma KeptRequeuesNothing(s: Sys, a: Action, t: TaskId)
    requires t in s.db.tasks && s.db.tasks[t].status == TaskRunning
    requires a.ReservePage? || a.CheckPageUrl? || a.SaveDocument? || a.SaveRecords?
    ensures t in Next(s, a).db.tasks ==> Next(s, a).db.tasks[t].status != TaskQueued
  {
    hide OnlyKept, DbMove, SameRows, TaskModel.ReservePage, TaskModel.CheckPageUrl, TaskModel.SaveDocument,
        TaskModel.SaveRecords;
    match a
    case ReservePage(c, url) =>
      ReservePageMoves(s.db, c, url);
      KeptStatus(s.db, TaskModel.ReservePage(s.db, c, url).db, t);
    case CheckPageUrl(c, url) =>
      CheckPageMoves(s.db, c, url);
      KeptStatus(s.db, TaskModel.CheckPageUrl(s.db, c, url).db, t);
    case SaveDocument(c, document) =>
      DocumentMoves(s.db, c, document);
      KeptStatus(s.db, TaskModel.SaveDocument(s.db, c, document).db, t);
    case SaveRecords(c, decisions) =>
      RecordsMoves(s.db, c, decisions);
      KeptStatus(s.db, TaskModel.SaveRecords(s.db, c, decisions).db, t);
  }

  lemma KeptStatus(o: Db, n: Db, t: TaskId)
    requires OnlyKept(o, n) && t in o.tasks
    ensures t in n.tasks && n.tasks[t].status == o.tasks[t].status
  {
  }

  lemma RowStaysBounded(s: Sys, a: Action, t: TaskId)
    requires Inv(s) && AllBounded(s.db) && Timely(s, a) && t in Next(s, a).db.tasks
    ensures RowBounded(Next(s, a).db.tasks[t])
  {
    hide Next, Inv, Timely;
    StepKeepsInv(s, a);
    if t in s.db.tasks {
      RowMoved(s.db, Next(s, a).db, FootprintOf(s, a), t);
      if FootprintOf(s, a).retried == Some(t) {
        RetriedRow(s, a, t);
      } else if s.db.tasks[t].status == TaskRunning && Next(s, a).db.tasks[t].status == TaskQueued {
        RequeueHasAttemptsLeft(s, a, t);
      }
    }
  }

  lemma RetriedRow(s: Sys, a: Action, t: TaskId)
    requires AllBounded(s.db) && Timely(s, a) && t in s.db.tasks && FootprintOf(s, a).retried == Some(t)
    ensures t in Next(s, a).db.tasks && RowBounded(Next(s, a).db.tasks[t])
  {
  }

  /** A step keeps the bounds exactly if it is no untimely retry. */
  lemma StepBoundedIff(s: Sys, a: Action)
    requires Inv(s) && AllBounded(s.db)
    ensures AllBounded(Next(s, a).db) <==> Timely(s, a)
  {
    hide Next, Inv, Timely, RowBounded;
    if Timely(s, a) {
      forall t | t in Next(s, a).db.tasks ensures RowBounded(Next(s, a).db.tasks[t]) {
        RowStaysBounded(s, a, t);
      }
    } else {
      UntimelyOverruns(s, a);
    }
  }

  lemma UntimelyOverruns(s: Sys, a: Action)
    requires !Timely(s, a)
    ensures a.CommitRetry? && At(s, a.p).Retrying?
    ensures At(s, a.p).task in Next(s, a).db.tasks && !RowBounded(Next(s, a).db.tasks[At(s, a.p).task])
  {
    RetryLeavesAnAttemptIff(s, a.p);
  }

  ghost predicate AllTimely(acts: seq<Action>) {
    forall k :: 0 <= k < |acts| ==> Timely(Exec(Init(), acts[..k]), acts[k])
  }

  ghost predicate AlwaysBounded(acts: seq<Action>) {
    forall k :: 0 <= k <= |acts| ==> AllBounded(Exec(Init(), acts[..k]).db)
  }

  lemma BoundedSoFar(acts: seq<Action>)
    requires acts != []
    ensures AlwaysBounded(acts) <==> AlwaysBounded(acts[..|acts| - 1]) && AllBounded(Exec(Init(), acts).db)
  {
    hide Exec, AllBounded;
    FrontPrefixes(acts);
    var front := acts[..|acts| - 1];
    if AlwaysBounded(acts) {
      forall k | 0 <= k <= |front| ensures AllBounded(Exec(Init(), front[..k]).db) {
        assert front[..k] == acts[..k];
      }
    }
  }

  lemma TimelySoFar(acts: seq<Action>)
    requires acts != []
    ensures AllTimely(acts) <==>
              AllTimely(acts[..|acts| - 1]) && Timely(Exec(Init(), acts[..|acts| - 1]), acts[|acts| - 1])
  {
    hide Exec, Timely;
    FrontPrefixes(acts);
    var front := acts[..|acts| - 1];
    if AllTimely(acts) {
      forall k | 0 <= k < |front| ensures Timely(Exec(Init(), front[..k]), front[k]) {
        assert front[..k] == acts[..k];
      }
    }
  }

  /**
   In a run of the system no task ever exceeds its limit or waits in the queue without an attempt left, exactly
   if every retry that commits is timely.
   */
  lemma {:induction false} AttemptsStayBounded(acts: seq<Action>)
    ensures AlwaysBounded(acts) <==> AllTimely(acts)
    decreases |acts|
  {
    hide Next, Inv, Timely, AllBounded;
    if acts == [] {
      NoTaskOverruns();
    } else {
      var front := acts[..|acts| - 1];
      AttemptsStayBounded(front);
      BoundedSoFar(acts);
      TimelySoFar(acts);
      InvInitially();
      InvAlways(Init(), front);
      if AlwaysBounded(front) {
        assert front[..|front|] == front;
        StepBoundedIff(Exec(Init(), front), acts[|acts| - 1]);
      }
    }
  }

  lemma NoTaskOverruns()
    ensures AlwaysBounded([]) && AllTimely([])
  {
  }

  // ----- A retry that decides on an old reading -------------------------------------------------------

  /** Queued without an attempt left. */
  ghost predicate Stuck(db: Db, t: TaskId) {
    t in db.tasks && db.tasks[t].status == TaskQueued && db.tasks[t].attemptCount >= db.tasks[t].maxAttempts
  }

  /** No claim takes a stuck task and no retry revives it: it can only be cancelled or limited, and then it stays so. */
  lemma StuckRow(now: Time, o: Task, n: Task, retried: bool, paged: bool)
    requires TaskMove(now, o, n, retried, paged)
    requires || (o.status == TaskQueued && o.attemptCount >= o.maxAttempts)
             || o.status == TaskCancelled || o.status == TaskLimited
    ensures n.attemptCount == o.attemptCount && n.maxAttempts == o.maxAttempts
    ensures n.status == o.status || (o.status == TaskQueued && (n.status == TaskCancelled || n.status == TaskLimited))
  {
  }

  /**
   A stuck task is never attempted again, whatever happens: it stays queued without an attempt left until a
   cancel or the deadline ends it for good.  A retry is refused, since the task has not failed.
   */
  lemma {:induction false} StuckTaskIsNeverClaimed(s: Sys, acts: seq<Action>, t: TaskId)
    requires Inv(s) && Stuck(s.db, t)
    ensures var n := Exec(s, acts).db;
            && t in n.tasks && n.tasks[t].attemptCount == s.db.tasks[t].attemptCount
            && n.tasks[t].maxAttempts == s.db.tasks[t].maxAttempts
            && (Stuck(n, t) || n.tasks[t].status == TaskCancelled || n.tasks[t].status == TaskLimited)
    decreases |acts|
  {
    hide Next, Inv, DbMove;
    if acts != [] {
      var front := acts[..|acts| - 1];
      StuckTaskIsNeverClaimed(s, front, t);
      InvAlways(s, front);
      var before, a := Exec(s, front), acts[|acts| - 1];
      var f := FootprintOf(before, a);
      StepKeepsInv(before, a);
      RowMoved(before.db, Exec(s, acts).db, f, t);
      StuckRow(before.db.now, before.db.tasks[t], Exec(s, acts).db.tasks[t], f.retried == Some(t), f.paged == Some(t));
    }
  }

  /** In particular a retry of it is refused at every later moment. */
  lemma StuckTaskIsNotRetried(s: Sys, acts: seq<Action>, t: TaskId, limit: int)
    requires Inv(s) && Stuck(s.db, t)
    ensures !TaskModel.CommitRetry(Exec(s, acts).db, t, limit).reply
  {
    StuckTaskIsNeverClaimed(s, acts, t);
    hide Exec, Inv, Next;
  }

  lemma {:induction false} ExecConcat(s: Sys, a: seq<Action>, b: seq<Action>)
    ensures Exec(s, a + b) == Exec(Exec(s, a), b)
    decreases |b|
  {
    hide Next;
    if b == [] {
      assert a + b == a;
    } else {
      ExecConcat(s, a, b[..|b| - 1]);
      assert (a + b)[..|a + b| - 1] == a + b[..|b| - 1];
    }
  }

  /** A worker takes the task and dies; five minutes later its lease has run out. */
  const LOST_ATTEMPT := [ClaimTask(0, "worker", 300, None), Tick(301)]

  function LostAttempts(n: nat): seq<Action> {
    if n == 0 then [] else LostAttempts(n - 1) + LOST_ATTEMPT
  }

  /** Task 0 can be claimed now and its run's deadline is a day away. */
  ghost predicate Ready(s: Sys, count: nat, limit: int) {
    && 0 in s.db.tasks && s.db.tasks[0].run == 0 && 0 in s.db.runs && RunActive(s.db.runs[0].status)
    && s.db.runs[0].budget.Some? && s.db.runs[0].budget.value.maxDurationSeconds == 86400 && s.db.runs[0].createdAt == 0
    && s.db.tasks[0].attemptCount == count && s.db.tasks[0].maxAttempts == limit
    && (if s.db.tasks[0].status == TaskQueued
        then s.db.tasks[0].nextRetry.None? || s.db.tasks[0].nextRetry.value <= s.db.now
        else
          && s.db.tasks[0].status == TaskRunning && LeaseExpired(s.db, s.db.tasks[0])
          && s.db.runs[0].status == RunRunning)
  }

  lemma ClaimGranted(db: Db)
    requires TaskModel.ClaimTask(db, 0, "worker", 300, None).reply.Some? && db.tasks[0].run in db.runs
    ensures var n, t := TaskModel.ClaimTask(db, 0, "worker", 300, None).db, db.tasks[0];
            && n.now == db.now && RunActive(db.runs[t.run].status)
            && n.tasks == db.tasks[0 := t.(status := TaskRunning, attemptCount := t.attemptCount + 1, owner := "worker",
                                           leaseUntil := Some(db.now + 300))]
            && n.runs == db.runs[t.run := db.runs[t.run].(status := RunRunning)]
  {
  }

  lemma ClaimIsGranted(s: Sys)
    requires Inv(s) && Claimable(s.db, 0, None)
    ensures TaskModel.ClaimTask(s.db, 0, "worker", 300, None).reply.Some?
    ensures Next(s, LOST_ATTEMPT[0]) == s.(db := TaskModel.ClaimTask(s.db, 0, "worker", 300, None).db)
  {
    hide TaskModel.ClaimTask;
    ClaimKeeps(s.db, 0, "worker", 300, None);
  }

  lemma ReadyClaim(s: Sys, count: nat, limit: int)
    requires Inv(s) && Ready(s, count, limit) && count < limit
    ensures var n := Next(s, LOST_ATTEMPT[0]);
            && n.procs == s.procs && n.db.now == s.db.now
            && 0 in n.db.tasks && 0 in n.db.runs && n.db.runs[0] == s.db.runs[0].(status := RunRunning)
            && n.db.tasks[0] == s.db.tasks[0].(status := TaskRunning, attemptCount := count + 1, owner := "worker",
                                               leaseUntil := Some(s.db.now + 300))
  {
    hide Inv, Next, TaskModel.ClaimTask;
    assert Claimable(s.db, 0, None);
    ClaimIsGranted(s);
    ClaimGranted(s.db);
  }

  lemma LostAttemptCounts(s: Sys, count: nat, limit: int)
    requires Inv(s) && Ready(s, count, limit) && count < limit
    ensures var n := Exec(s, LOST_ATTEMPT);
            Inv(n) && Ready(n, count + 1, limit) && n.db.tasks[0].status == TaskRunning && n.db.now == s.db.now + 301
                && n.procs == s.procs
  {
    hide Inv;
    ReadyClaim(s, count, limit);
    Exec2(s, LOST_ATTEMPT[0], Tick(301));
    TickOnly(Next(s, LOST_ATTEMPT[0]), 301);
    InvAlways(s, LOST_ATTEMPT);
    hide Next, Exec;
  }

  lemma TickOnly(s: Sys, d: nat)
    ensures Next(s, Tick(d)) == s.(db := s.db.(now := s.db.now + d))
  {
  }

  lemma Exec2(s: Sys, a: Action, b: Action)
    ensures Exec(s, [a, b]) == Next(Next(s, a), b)
  {
    hide Next;
    assert [a, b][..1] == [a] && [a][..0] == [];
    assert Exec(s, [a]) == Next(s, a);
  }

  lemma {:induction false} LostAttemptsCount(s: Sys, count: nat, limit: int, n: nat)
    requires Inv(s) && Ready(s, count, limit) && count + n <= limit && n > 0
    ensures var e := Exec(s, LostAttempts(n));
            Inv(e) && Ready(e, count + n, limit) && e.db.tasks[0].status == TaskRunning
                && e.db.now == s.db.now + 301 * n && e.procs == s.procs
  {
    hide Inv, Next;
    ExecConcat(s, LostAttempts(n - 1), LOST_ATTEMPT);
    if n > 1 {
      LostAttemptsCount(s, count, limit, n - 1);
    } else {
      assert LostAttempts(0) == [] && Exec(s, []) == s;
    }
    LostAttemptCounts(Exec(s, LostAttempts(n - 1)), count + n - 1, limit);
  }

  const SOME_BUDGET := Budget(1, 1, 1, 1, 86400, 1, ["example.org"])
  const SOME_INPUT := TaskInput(EMPTY_URL, 0, 0, "")

  /** Two users ask for a retry of the same failed task; the second request commits after the first retry has failed. */
  function TwoRetries(): seq<Action> {
    [StartRun(SOME_BUDGET, SOME_INPUT)] + LostAttempts(5)
      + [RecoverTask(1, 0), ReadForRetry(2, 0), ReadForRetry(3, 0), CommitRetry(2)] + LostAttempts(5)
      + [RecoverTask(4, 0)]
  }

  lemma FirstRetry(s: Sys)
    requires Inv(s) && Ready(s, 5, 5) && s.db.tasks[0].status == TaskRunning && s.procs == map[] && s.db.now < 10000
    ensures var n := Exec(s, [RecoverTask(1, 0), ReadForRetry(2, 0), ReadForRetry(3, 0), CommitRetry(2)]);
            Inv(n) && Ready(n, 5, 10) && At(n, 3) == Retrying(0, 5, 5) && At(n, 4).Idle? && n.db.now == s.db.now
  {
    hide Inv;
    var acts := [RecoverTask(1, 0), ReadForRetry(2, 0), ReadForRetry(3, 0), CommitRetry(2)];
    var s1 := Next(s, acts[0]);
    var s2 := Next(s1, acts[1]);
    var s3 := Next(s2, acts[2]);
    var s4 := Next(s3, acts[3]);
    FailsForGood(s);
    BothRead(s1);
    Exec4(s, acts[0], acts[1], acts[2], acts[3]);
    InvAlways(s, acts);
  }

  lemma FailsForGood(s: Sys)
    requires Ready(s, 5, 5) && s.db.tasks[0].status == TaskRunning && s.procs == map[]
    ensures var n := Next(s, RecoverTask(1, 0));
            && n.db.now == s.db.now && n.procs == map[1 := Finishing(0)] && n.db.runs == s.db.runs
            && n.db.tasks == s.db.tasks[0 := Release(s.db.tasks[0], TaskDeadLetter).(nextRetry := Some(s.db.now))]
  {
  }

  /** The task has failed for good in a run whose time is not up. */
  ghost predicate Failed(db: Db, count: nat) {
    && 0 in db.tasks && db.tasks[0].run == 0 && 0 in db.runs && db.runs[0].status == RunRunning
    && db.tasks[0].attemptCount == count && db.tasks[0].maxAttempts == count && db.tasks[0].status == TaskDeadLetter
    && db.now < 20000
    && db.runs[0].budget.Some? && db.runs[0].budget.value.maxDurationSeconds == 86400 && db.runs[0].createdAt == 0
  }

  lemma Reads(s: Sys, p: ProcId, count: nat)
    requires Failed(s.db, count) && At(s, p).Idle?
    ensures Next(s, ReadForRetry(p, 0)) == s.(procs := s.procs[p := Retrying(0, count, count)])
  {
  }

  lemma BothRead(s: Sys)
    requires Failed(s.db, 5) && s.db.now < 10000 && s.procs == map[1 := Finishing(0)]
    ensures var n := Next(Next(Next(s, ReadForRetry(2, 0)), ReadForRetry(3, 0)), CommitRetry(2));
            Ready(n, 5, 10) && At(n, 3) == Retrying(0, 5, 5) && At(n, 4).Idle? && n.db.now == s.db.now
  {
    hide Next;
    Reads(s, 2, 5);
    Reads(s.(procs := s.procs[2 := Retrying(0, 5, 5)]), 3, 5);
    CommitsRetry(s.(procs := s.procs[2 := Retrying(0, 5, 5)][3 := Retrying(0, 5, 5)]), 2, 5);
  }

  /** A retry that read five attempts of five commits a limit of ten. */
  lemma CommitsRetry(s: Sys, p: ProcId, count: nat)
    requires Failed(s.db, count) && At(s, p) == Retrying(0, 5, 5)
    ensures var n := Next(s, CommitRetry(p));
            && n.procs == s.procs[p := Idle] && n.db.now == s.db.now && n.db.runs == s.db.runs
            && n.db.tasks == s.db.tasks[0 := s.db.tasks[0].(status := TaskQueued, maxAttempts := 10,
                                                            nextRetry := Some(s.db.now))]
  {
    assert s.db.runs[0].(status := RunRunning) == s.db.runs[0];
  }

  lemma Exec4(s: Sys, a: Action, b: Action, c: Action, d: Action)
    ensures Exec(s, [a, b, c, d]) == Next(Next(Next(Next(s, a), b), c), d)
  {
    hide Next;
    assert [a, b, c, d][..3] == [a, b, c] && [a, b, c][..2] == [a, b] && [a, b][..1] == [a] && [a][..0] == [];
    assert Exec(s, [a]) == Next(s, a) && Exec(s, [a, b]) == Next(Exec(s, [a]), b);
    assert Exec(s, [a, b, c]) == Next(Exec(s, [a, b]), c) && Exec(s, [a, b, c, d]) == Next(Exec(s, [a, b, c]), d);
  }

  /** In this run of the system the late request commits and the task is stuck in the queue of an active run. */
  lemma StaleRetryStrandsTask()
    ensures var s := Exec(Init(), TwoRetries());
            && !Timely(s, CommitRetry(3))
            && Stuck(Next(s, CommitRetry(3)).db, 0) && RunIsActive(Next(s, CommitRetry(3)).db, 0)
  {
    hide Inv, Next, Ready, Timely, Stuck, RunIsActive;
    var start := [StartRun(SOME_BUDGET, SOME_INPUT)];
    var middle := [RecoverTask(1, 0), ReadForRetry(2, 0), ReadForRetry(3, 0), CommitRetry(2)];
    var loss := LostAttempts(5);
    var s1 := Next(Init(), start[0]);
    assert start[..0] == [] && Exec(Init(), start) == s1;
    InvInitially();
    InvAlways(Init(), start);
    StartIsReady();
    LostAttemptsCount(s1, 0, 5, 5);
    var s2 := Exec(s1, loss);
    FirstRetry(s2);
    var s3 := Exec(s2, middle);
    LostAttemptsCount(s3, 5, 10, 5);
    var s4 := Exec(s3, loss);
    ExecConcat(Init(), start, loss);
    ExecConcat(Init(), start + loss, middle);
    ExecConcat(Init(), start + loss + middle, loss);
    ExecConcat(Init(), start + loss + middle + loss, [RecoverTask(4, 0)]);
    assert [RecoverTask(4, 0)][..0] == [] && Exec(s4, [RecoverTask(4, 0)]) == Next(s4, RecoverTask(4, 0));
    LateRetry(s4);
  }

  lemma StartIsReady()
    ensures var s := Next(Init(), StartRun(SOME_BUDGET, SOME_INPUT));
            Ready(s, 0, 5) && s.procs == map[] && s.db.now == 0
  {
  }

  lemma LateRetry(s: Sys)
    requires Ready(s, 10, 10) && s.db.tasks[0].status == TaskRunning && At(s, 3) == Retrying(0, 5, 5)
    requires At(s, 4).Idle? && s.db.now < 20000
    ensures var n := Next(s, RecoverTask(4, 0));
            && !Timely(n, CommitRetry(3))
            && Stuck(Next(n, CommitRetry(3)).db, 0) && RunIsActive(Next(n, CommitRetry(3)).db, 0)
  {
    hide Next;
    LateFailure(s);
    CommitsRetry(Next(s, RecoverTask(4, 0)), 3, 10);
  }

  lemma LateFailure(s: Sys)
    requires Ready(s, 10, 10) && s.db.tasks[0].status == TaskRunning && At(s, 3) == Retrying(0, 5, 5)
    requires At(s, 4).Idle? && s.db.now < 20000
    ensures var n := Next(s, RecoverTask(4, 0)); Failed(n.db, 10) && At(n, 3) == Retrying(0, 5, 5)
  {
  }

  // ----- The work of a whole run ------------------------------------------------------------------------

  function AttemptsOf(db: Db, run: RunId): set<AttemptKey> {
    set k | k in db.attempts && k.task in db.tasks && db.tasks[k.task].run == run
  }

  predicate IsClaim(s: Sys, a: Action, run: RunId) {
    a.ClaimTask? && TaskModel.ClaimTask(s.db, a.id, a.worker, a.lease, a.kind).reply.Some?
        && s.db.tasks[a.id].run == run
  }

  /** How many claims of the run's tasks succeed. */
  function Claims(s: Sys, acts: seq<Action>, run: RunId): nat
    decreases |acts|
  {
    if acts == [] then 0
    else
      var front := acts[..|acts| - 1];
      Claims(s, front, run) + if IsClaim(Exec(s, front), acts[|acts| - 1], run) then 1 else 0
  }

  lemma OnlyClaimsAddAttempts(s: Sys, a: Action)
    requires !a.ClaimTask?
    ensures Next(s, a).db.attempts.Keys == s.db.attempts.Keys
  {
    hide Next;
    if a.CreateChild? || a.ReservePage? || a.CheckPageUrl? || a.SaveDocument? || a.SaveRecords? || a.RenewLease? {
      WorkerAddsNoAttempt(s, a);
    } else {
      OthersAddNoAttempt(s, a);
    }
  }

  lemma WorkerAddsNoAttempt(s: Sys, a: Action)
    requires a.CreateChild? || a.ReservePage? || a.CheckPageUrl? || a.SaveDocument? || a.SaveRecords? || a.RenewLease?
    ensures Next(s, a).db.attempts == s.db.attempts
  {
    hide TaskModel.CreateChild, TaskModel.ReservePage, TaskModel.CheckPageUrl;
    match a
    case CreateChild(c, step, input) => CreateChildShape(s.db, c, step, input);
    case ReservePage(c, url) => ReservePageMoves(s.db, c, url);
    case CheckPageUrl(c, url) => CheckPageMoves(s.db, c, url);
    case _ =>
  }

  lemma OthersAddNoAttempt(s: Sys, a: Action)
    requires !(a.CreateChild? || a.ReservePage? || a.CheckPageUrl? || a.SaveDocument? || a.SaveRecords? || a.RenewLease?
               || a.ClaimTask?)
    ensures Next(s, a).db.attempts.Keys == s.db.attempts.Keys
  {
    hide FinalStatus, Subtree, CloseTasks, FindRoot;
    if a.CommitComplete? || a.CommitFail? || a.CommitRetry? || a.RecoverTask? || a.Finish? {
      EndingAddsNoAttempt(s, a);
    }
  }

  lemma EndingAddsNoAttempt(s: Sys, a: Action)
    requires a.CommitComplete? || a.CommitFail? || a.CommitRetry? || a.RecoverTask? || a.Finish?
    ensures Next(s, a).db.attempts.Keys == s.db.attempts.Keys
  {
    hide FinalStatus;
  }

  lemma ClaimAddsAttempt(db: Db, id: TaskId, worker: string, lease: int, kind: Option<TaskKind>, run: RunId)
    requires Referenced(db)
    ensures var r := TaskModel.ClaimTask(db, id, worker, lease, kind);
            if r.reply.None? then r.db == db
            else
              && id in db.tasks && AttemptKey(id, db.tasks[id].attemptCount + 1) !in db.attempts
              && AttemptsOf(r.db, run) == AttemptsOf(db, run) + if db.tasks[id].run == run
                 then {AttemptKey(id, db.tasks[id].attemptCount + 1)} else {}
  {
    var r := TaskModel.ClaimTask(db, id, worker, lease, kind);
    if r.reply.Some? {
      var key := AttemptKey(id, db.tasks[id].attemptCount + 1);
      assert r.db.tasks.Keys == db.tasks.Keys && forall t :: t in db.tasks ==> r.db.tasks[t].run == db.tasks[t].run;
      assert r.db.attempts.Keys == db.attempts.Keys + {key};
    }
  }

  lemma ClaimStep(s: Sys, a: Action)
    requires a.ClaimTask?
    ensures Next(s, a).db == TaskModel.ClaimTask(s.db, a.id, a.worker, a.lease, a.kind).db
  {
  }

  lemma StepCounts(s: Sys, a: Action, run: RunId)
    requires Inv(s)
    ensures |AttemptsOf(Next(s, a).db, run)| == |AttemptsOf(s.db, run)| + if IsClaim(s, a, run) then 1 else 0
  {
    hide Next, Inv;
    if a.ClaimTask? {
      InvRefers(s);
      ClaimAddsAttempt(s.db, a.id, a.worker, a.lease, a.kind, run);
      ClaimStep(s, a);
    } else {
      StepKeepsInv(s, a);
      OnlyClaimsAddAttempts(s, a);
      InvRefers(s);
      forall k | k in s.db.attempts
        ensures k.task in Next(s, a).db.tasks && Next(s, a).db.tasks[k.task].run == s.db.tasks[k.task].run
      {
        PlaceKept(s.db, Next(s, a).db, FootprintOf(s, a), k.task);
      }
      assert AttemptsOf(Next(s, a).db, run) == AttemptsOf(s.db, run);
    }
  }

  /** The attempts on record are exactly the successful claims, in every run of the system. */
  lemma {:induction false} ClaimsAreAttempts(acts: seq<Action>, run: RunId)
    ensures Claims(Init(), acts, run) == |AttemptsOf(Exec(Init(), acts).db, run)|
    decreases |acts|
  {
    hide Next, Inv;
    if acts != [] {
      var front := acts[..|acts| - 1];
      ClaimsAreAttempts(front, run);
      InvInitially();
      InvAlways(Init(), front);
      StepCounts(Exec(Init(), front), acts[|acts| - 1], run);
    }
  }

  // ----- Attempts and retries ----------------------------------------------------------------------------

  /** How many retries of the task commit. */
  function Retries(s: Sys, acts: seq<Action>, t: TaskId): nat
    decreases |acts|
  {
    if acts == [] then 0
    else
      var front := acts[..|acts| - 1];
      Retries(s, front, t) + if FootprintOf(Exec(s, front), acts[|acts| - 1]).retried == Some(t) then 1 else 0
  }

  /** Five attempts, and five more for each committed retry. */
  function Earned(acts: seq<Action>, t: TaskId): nat {
    5 + 5 * Retries(Init(), acts, t)
  }

  ghost predicate Deserved(s: Sys, acts: seq<Action>) {
    && (forall t :: t in s.db.tasks ==>
          s.db.tasks[t].attemptCount <= Earned(acts, t) && s.db.tasks[t].maxAttempts <= Earned(acts, t))
    && (forall p :: At(s, p).Retrying? ==> At(s, p).limit <= Earned(acts, At(s, p).task))
  }

  lemma EarnedStep(acts: seq<Action>, t: TaskId)
    requires acts != []
    ensures var front := acts[..|acts| - 1];
            Earned(acts, t) == Earned(front, t)
              + if FootprintOf(Exec(Init(), front), acts[|acts| - 1]).retried == Some(t) then 5 else 0
  {
    hide Exec, FootprintOf;
  }

  /** A retry sets the limit it has computed, from counts read earlier, and leaves the attempts alone. */
  lemma RetrySetsLimit(s: Sys, a: Action, t: TaskId)
    requires Inv(s) && FootprintOf(s, a).retried == Some(t)
    ensures a.CommitRetry? && At(s, a.p).Retrying? && t == At(s, a.p).task
    ensures t in s.db.tasks && t in Next(s, a).db.tasks
    ensures At(s, a.p).count <= s.db.tasks[t].attemptCount
    ensures var row := Next(s, a).db.tasks[t];
            row.attemptCount == s.db.tasks[t].attemptCount
            && row.maxAttempts == RetryLimit(At(s, a.p).count, At(s, a.p).limit)
  {
    hide DbInv;
    assert PcGrounded(s.db, At(s, a.p));
    hide Inv;
  }

  /** Every other step keeps the limit, and an attempt more is one within it. */
  lemma LimitKept(now: Time, o: Task, n: Task, paged: bool)
    requires TaskMove(now, o, n, false, paged)
    ensures n.maxAttempts == o.maxAttempts
    ensures n.attemptCount == o.attemptCount || n.attemptCount == o.attemptCount + 1 <= o.maxAttempts
  {
  }

  lemma RowDeserved(s: Sys, acts: seq<Action>, t: TaskId)
    requires acts != [] && s == Exec(Init(), acts[..|acts| - 1]) && Inv(s) && Deserved(s, acts[..|acts| - 1])
    requires t in Exec(Init(), acts).db.tasks
    ensures var row := Exec(Init(), acts).db.tasks[t];
            row.attemptCount <= Earned(acts, t) && row.maxAttempts <= Earned(acts, t)
  {
    hide Next, Inv, DbMove, FootprintOf, Earned;
    var a := acts[|acts| - 1];
    var f, n := FootprintOf(s, a), Next(s, a).db;
    StepKeepsInv(s, a);
    EarnedStep(acts, t);
    if t !in s.db.tasks {
      NewRow(s.db, n, f, t);
      EarnsFive(acts, t);
    } else if f.retried == Some(t) {
      RetrySetsLimit(s, a, t);
    } else {
      RowMoved(s.db, n, f, t);
      LimitKept(s.db.now, s.db.tasks[t], n.tasks[t], f.paged == Some(t));
    }
  }

  lemma EarnsFive(acts: seq<Action>, t: TaskId)
    ensures Earned(acts, t) >= 5
  {
    hide Exec, FootprintOf;
  }

  lemma ReaderDeserved(s: Sys, acts: seq<Action>, p: ProcId)
    requires acts != [] && s == Exec(Init(), acts[..|acts| - 1]) && Deserved(s, acts[..|acts| - 1])
    requires At(Exec(Init(), acts), p).Retrying?
    ensures At(Exec(Init(), acts), p).limit <= Earned(acts, At(Exec(Init(), acts), p).task)
  {
    hide Next, FootprintOf, Earned;
    NewRetrierRead(s, acts[|acts| - 1], p);
    EarnedStep(acts, At(Exec(Init(), acts), p).task);
  }

  lemma {:induction false} AttemptsAreDeserved(acts: seq<Action>)
    ensures Deserved(Exec(Init(), acts), acts)
    decreases |acts|
  {
    hide Next, Inv, Deserved;
    if acts == [] {
      NothingDeserved();
    } else {
      var front := acts[..|acts| - 1];
      AttemptsAreDeserved(front);
      InvInitially();
      InvAlways(Init(), front);
      DeservedStep(Exec(Init(), front), acts);
    }
  }

  lemma NothingDeserved()
    ensures Deserved(Init(), [])
  {
  }

  lemma DeservedStep(s: Sys, acts: seq<Action>)
    requires acts != [] && s == Exec(Init(), acts[..|acts| - 1]) && Inv(s) && Deserved(s, acts[..|acts| - 1])
    ensures Deserved(Exec(Init(), acts), acts)
  {
    hide Exec, Next, Inv, Earned;
    var n := Exec(Init(), acts);
    forall t | t in n.db.tasks
      ensures n.db.tasks[t].attemptCount <= Earned(acts, t) && n.db.tasks[t].maxAttempts <= Earned(acts, t)
    {
      RowDeserved(s, acts, t);
    }
    forall p | At(n, p).Retrying? ensures At(n, p).limit <= Earned(acts, At(n, p).task) {
      ReaderDeserved(s, acts, p);
    }
  }

  /** A task is attempted at most five times, and five times more for each retry of it that commits. */
  lemma TaskWorkIsBounded(acts: seq<Action>, t: TaskId)
    ensures var db := Exec(Init(), acts).db;
            t in db.tasks ==> db.tasks[t].attemptCount <= 5 + 5 * Retries(Init(), acts, t)
  {
    AttemptsAreDeserved(acts);
    hide Exec, Retries;
  }

  lemma NewRow(o: Db, n: Db, f: Footprint, t: TaskId)
    requires DbMove(o, n, f) && t in n.tasks && t !in o.tasks
    ensures FreshTask(n.tasks[t])
  {
  }

  /** The attempts of a task numbered up to `n`. */
  function FirstAttempts(t: TaskId, n: nat): (keys: set<AttemptKey>)
    ensures |keys| == n && forall k :: k in keys <==> k.task == t && 1 <= k.no <= n
  {
    if n == 0 then {} else FirstAttempts(t, n - 1) + {AttemptKey(t, n)}
  }

  lemma AttemptsOfTask(keys: set<AttemptKey>, t: TaskId, n: nat)
    requires forall k :: k in keys ==> k.task == t && 1 <= k.no <= n
    ensures |keys| <= n
  {
    assert keys <= FirstAttempts(t, n);
    SubsetCardinality(keys, FirstAttempts(t, n));
  }

  // ----- Summed over a run -------------------------------------------------------------------------------

  /** How many retries of the run's tasks commit. */
  function RunRetries(s: Sys, acts: seq<Action>, run: RunId): nat
    decreases |acts|
  {
    if acts == [] then 0
    else
      var front := acts[..|acts| - 1];
      RunRetries(s, front, run) + if RetriesRun(Exec(s, front), acts[|acts| - 1], run) then 1 else 0
  }

  predicate InRun(db: Db, run: RunId, t: TaskId) {
    t in db.tasks && db.tasks[t].run == run
  }

  /** The retries of the run's tasks with ids below `bound`. */
  function RetriesBelow(db: Db, run: RunId, acts: seq<Action>, bound: TaskId): nat {
    if bound == 0 then 0
    else
      var before := RetriesBelow(db, run, acts, bound - 1);
      if InRun(db, run, bound - 1) then before + Retries(Init(), acts, bound - 1) else before
  }

  function TasksBelow(db: Db, run: RunId, bound: TaskId): set<TaskId> {
    set t | t in db.tasks && db.tasks[t].run == run && t < bound
  }

  function AttemptsBelow(db: Db, run: RunId, bound: TaskId): set<AttemptKey> {
    set k | k in AttemptsOf(db, run) && k.task < bound
  }

  /** Every attempt of the run's tasks below `bound` is deserved. */
  lemma {:induction false} AttemptsBelowAreFew(s: Sys, acts: seq<Action>, run: RunId, bound: TaskId)
    requires Inv(s) && Deserved(s, acts)
    ensures |AttemptsBelow(s.db, run, bound)|
            <= 5 * |TasksBelow(s.db, run, bound)| + 5 * RetriesBelow(s.db, run, acts, bound)
  {
    hide Inv, Deserved, Retries, AttemptsBelow, TasksBelow, InRun, AttemptsFor;
    if bound == 0 {
      NothingBelow(s.db, run);
    } else {
      AttemptsBelowAreFew(s, acts, run, bound - 1);
      OneTaskMore(s.db, run, bound - 1);
      AttemptsForAreFew(s, acts, run, bound - 1);
    }
  }

  function AttemptsFor(db: Db, run: RunId, t: TaskId): set<AttemptKey> {
    set k | k in AttemptsOf(db, run) && k.task == t
  }

  lemma NothingBelow(db: Db, run: RunId)
    ensures AttemptsBelow(db, run, 0) == {}
  {
  }

  lemma OneTaskMore(db: Db, run: RunId, t: TaskId)
    ensures |AttemptsBelow(db, run, t + 1)| == |AttemptsBelow(db, run, t)| + |AttemptsFor(db, run, t)|
    ensures |TasksBelow(db, run, t + 1)| == |TasksBelow(db, run, t)| + if InRun(db, run, t) then 1 else 0
  {
    assert AttemptsBelow(db, run, t + 1) == AttemptsBelow(db, run, t) + AttemptsFor(db, run, t);
    assert TasksBelow(db, run, t + 1) == TasksBelow(db, run, t) + if InRun(db, run, t) then {t} else {};
  }

  lemma AttemptsForAreFew(s: Sys, acts: seq<Action>, run: RunId, t: TaskId)
    requires Inv(s) && Deserved(s, acts)
    ensures |AttemptsFor(s.db, run, t)| <= if InRun(s.db, run, t) then Earned(acts, t) else 0
  {
    hide Inv, Deserved, Earned;
    if InRun(s.db, run, t) {
      forall k | k in AttemptsFor(s.db, run, t) ensures 1 <= k.no <= Earned(acts, t) {
        AttemptIsNumbered(s, k);
        AttemptIsDeserved(s, acts, t);
      }
      EarnsFive(acts, t);
      AttemptsOfTask(AttemptsFor(s.db, run, t), t, Earned(acts, t));
    } else {
      assert AttemptsFor(s.db, run, t) == {};
    }
  }

  lemma AttemptIsDeserved(s: Sys, acts: seq<Action>, t: TaskId)
    requires Deserved(s, acts) && t in s.db.tasks
    ensures s.db.tasks[t].attemptCount <= Earned(acts, t)
  {
    hide Earned;
  }

  /** A task that does not exist yet has not been retried. */
  lemma {:induction false} NoRetryYet(acts: seq<Action>, t: TaskId)
    requires t !in Exec(Init(), acts).db.tasks
    ensures Retries(Init(), acts, t) == 0
    decreases |acts|
  {
    hide Next, Inv, DbMove, FootprintOf;
    if acts != [] {
      var front := acts[..|acts| - 1];
      InvInitially();
      InvAlways(Init(), front);
      var s, a := Exec(Init(), front), acts[|acts| - 1];
      StepKeepsInv(s, a);
      if t in s.db.tasks {
        PlaceKept(s.db, Next(s, a).db, FootprintOf(s, a), t);
        assert false;
      }
      NoRetryYet(front, t);
      if FootprintOf(s, a).retried == Some(t) {
        RetrySetsLimit(s, a, t);
        assert false;
      }
    }
  }

  /** One step more, summed over the tasks below `bound`. */
  lemma {:induction false} RetriesBelowStep(s: Sys, acts: seq<Action>, run: RunId, bound: TaskId)
    requires acts != [] && s == Exec(Init(), acts[..|acts| - 1]) && Inv(s)
    ensures var n, front, a := Exec(Init(), acts), acts[..|acts| - 1], acts[|acts| - 1];
            RetriesBelow(n.db, run, acts, bound) == RetriesBelow(s.db, run, front, bound)
              + if RetriesRun(s, a, run) && FootprintOf(s, a).retried.value < bound then 1 else 0
  {
    hide Exec, Inv, Retries, FootprintOf;
    if bound == 0 {
      if RetriesRun(s, acts[|acts| - 1], run) {
        var t: TaskId := FootprintOf(s, acts[|acts| - 1]).retried.value;
        assert t >= 0;
      }
    } else {
      RetriesBelowStep(s, acts, run, bound - 1);
      RetriesOfOne(s, acts, run, bound - 1);
    }
  }

  lemma RetriesOfOne(s: Sys, acts: seq<Action>, run: RunId, t: TaskId)
    requires acts != [] && s == Exec(Init(), acts[..|acts| - 1]) && Inv(s)
    ensures var n, front, a := Exec(Init(), acts), acts[..|acts| - 1], acts[|acts| - 1];
            (if InRun(n.db, run, t) then Retries(Init(), acts, t) else 0)
            == (if InRun(s.db, run, t) then Retries(Init(), front, t) else 0)
               + if RetriesRun(s, a, run) && FootprintOf(s, a).retried.value == t then 1 else 0
  {
    hide Next, Inv, DbMove, FootprintOf;
    var a := acts[|acts| - 1];
    StepKeepsInv(s, a);
    if t in s.db.tasks {
      PlaceKept(s.db, Next(s, a).db, FootprintOf(s, a), t);
    } else {
      NoRetryYet(acts[..|acts| - 1], t);
      if FootprintOf(s, a).retried == Some(t) {
        RetrySetsLimit(s, a, t);
        assert false;
      }
    }
  }

  /** Summed over all tasks of the run the retries are the retries of the run. */
  lemma {:induction false} RetriesAddUp(acts: seq<Action>, run: RunId, bound: TaskId)
    requires forall t :: t in Exec(Init(), acts).db.tasks ==> t < bound
    ensures RetriesBelow(Exec(Init(), acts).db, run, acts, bound) == RunRetries(Init(), acts, run)
    decreases |acts|
  {
    hide Next, Inv, DbMove, FootprintOf, Retries;
    if acts == [] {
      NoRetriesBelow(Init().db, run, bound);
    } else {
      var front := acts[..|acts| - 1];
      InvInitially();
      InvAlways(Init(), front);
      var s, a := Exec(Init(), front), acts[|acts| - 1];
      StepKeepsInv(s, a);
      forall t | t in s.db.tasks ensures t < bound {
        PlaceKept(s.db, Next(s, a).db, FootprintOf(s, a), t);
      }
      RetriesAddUp(front, run, bound);
      RetriesBelowStep(s, acts, run, bound);
    }
  }

  lemma {:induction false} NoRetriesBelow(db: Db, run: RunId, bound: TaskId)
    ensures RetriesBelow(db, run, [], bound) == 0
  {
    if bound > 0 {
      NoRetriesBelow(db, run, bound - 1);
    }
  }

  /**
   The work of a run: over its whole life its tasks are claimed at most five times the number it may have, and
   five times more for each retry of one of them that commits, however stale the reading behind the retry.
   */
  lemma RunWorkIsBounded(acts: seq<Action>, run: RunId)
    ensures var db := Exec(Init(), acts).db;
            run in db.runs ==>
              && db.runs[run].budget.Some?
              && var most := db.runs[run].budget.value.maxTasks;
              && Claims(Init(), acts, run) <= 5 * |TasksOf(db, run)| + 5 * RunRetries(Init(), acts, run)
              && |TasksOf(db, run)| <= most <= 10000
              && Claims(Init(), acts, run) <= 5 * most + 5 * RunRetries(Init(), acts, run)
  {
    hide Exec, Next, Inv, Claims, RunRetries, Deserved;
    var s := Exec(Init(), acts);
    if run in s.db.runs {
      ClaimsAreAttempts(acts, run);
      AttemptsAreDeserved(acts);
      InvInitially();
      InvAlways(Init(), acts);
      TasksHaveIds(s);
      AttemptsBelowAreFew(s, acts, run, s.db.nextTask);
      RetriesAddUp(acts, run, s.db.nextTask);
      assert TasksBelow(s.db, run, s.db.nextTask) == TasksOf(s.db, run);
      forall k | k in AttemptsOf(s.db, run) ensures k.task < s.db.nextTask {
        AttemptIsNumbered(s, k);
      }
      assert AttemptsBelow(s.db, run, s.db.nextTask) == AttemptsOf(s.db, run);
      RunsStayWithinBudget(acts, run);
    }
  }

  lemma TasksHaveIds(s: Sys)
    requires Inv(s)
    ensures forall t :: t in s.db.tasks ==> t < s.db.nextTask
  {
  }

  lemma AttemptIsNumbered(s: Sys, k: AttemptKey)
    requires Inv(s) && k in s.db.attempts
    ensures k.task in s.db.tasks && 1 <= k.no <= s.db.tasks[k.task].attemptCount
  {
    ClaimedNumber(s.db, k.task, k.no);
  }
}
