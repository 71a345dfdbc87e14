/**
 Listing and recovery together: what a list page does to the database is what it does to the book, so a
 page that was interrupted by a crash is made up by the next attempt, whatever else happened meanwhile.
 */
module ListingRecovery {
  import opened Common
  import opened CrawlPolicy
  import opened TaskModel
  import opened TaskSystem
  import opened Ownership
  import opened Protocol
  import opened BudgetSafety
  import opened ListingReplay
  import opened Listing

  // ----- The database as a book ---------------------------------------------------------------------

  function KidOf(t: Task): Kid {
    Kid(t.step, t.input, t.parent, t.depth)
  }

  function LimitsOf(db: Db, run: RunId): set<LimitEvent> {
    set e | e in db.limits && e.run == run
  }

  function KidsOf(db: Db, ids: set<TaskId>): set<Kid> {
    set t | t in ids && t in db.tasks :: KidOf(db.tasks[t])
  }

  function BookOf(db: Db, run: RunId): Book {
    Book(KidsOf(db, TasksOf(db, run)), LimitsOf(db, run))
  }

  /** The claim may write for page `p`, whose run is within its time. */
  ghost predicate OnPage(db: Db, c: Claim, p: Page) {
    && DbInv(db) && BudgetInv(db)
    && MayWrite(db, c) && c.task == p.task && db.tasks[c.task].run == p.run && db.tasks[c.task].depth == p.depth
    && db.runs[p.run].budget == Some(p.budget) && db.now <= Deadline(db.runs[p.run], p.budget)
  }

  lemma {:induction false} ImageCounts(db: Db, ids: set<TaskId>)
    requires forall t :: t in ids ==> t in db.tasks
    requires forall t, u :: t in ids && u in ids && KidOf(db.tasks[t]) == KidOf(db.tasks[u]) ==> t == u
    ensures |KidsOf(db, ids)| == |ids|
    decreases |ids|
  {
    if ids == {} {
      assert KidsOf(db, {}) == {};
    } else {
      var u :| u in ids;
      ImageCounts(db, ids - {u});
      assert KidsOf(db, ids) == KidsOf(db, ids - {u}) + {KidOf(db.tasks[u])};
    }
  }

  lemma BookCounts(db: Db, p: Page)
    requires BudgetInv(db)
    ensures |BookOf(db, p.run).kids| == |TasksOf(db, p.run)|
    ensures |MyDetails(p, BookOf(db, p.run))| == |DetailsOf(db, p.run, p.task)|
    ensures Unique(BookOf(db, p.run))
  {
    ImageCounts(db, TasksOf(db, p.run));
    ImageCounts(db, DetailsOf(db, p.run, p.task));
    assert MyDetails(p, BookOf(db, p.run)) == KidsOf(db, DetailsOf(db, p.run, p.task));
  }

  /** Looking a page up by step and address in the task table is looking it up in the book. */
  lemma LookupIsKnown(db: Db, p: Page, step: string, input: TaskInput)
    requires DbInv(db) && BudgetInv(db) && input.url != EMPTY_URL
    ensures var found := FindWork(db, p.run, step, input, 0);
            && (found.Some? <==> Known(BookOf(db, p.run), step, input.url))
            && (found.Some? ==> (db.tasks[found.value].parent == Some(p.task) <==>
                                   Mine(p, BookOf(db, p.run), step, input.url)))
  {
    var found, b := FindWork(db, p.run, step, input, 0), BookOf(db, p.run);
    if found.Some? {
      assert KidOf(db.tasks[found.value]) in b.kids;
    }
    forall k | k in b.kids && k.step == step && k.input.url == input.url
      ensures found.Some? && k == KidOf(db.tasks[found.value])
    {
      var t :| t in TasksOf(db, p.run) && k == KidOf(db.tasks[t]);
      assert Placed(db, t) && SameWork(db.tasks[t], p.run, step, input);
    }
  }

  lemma RefusalIsReason(db: Db, c: Claim, p: Page, step: string, input: TaskInput)
    requires OnPage(db, c, p)
    ensures ChildBudgetReason(db, p.run, p.task, step, input) == Refusal(p, BookOf(db, p.run), step, input.url)
  {
    hide DbInv, BudgetInv, BookOf, MyDetails, TasksOf, DetailsOf, Admits;
    BookCounts(db, p);
  }

  lemma ChildStaysOnPage(db: Db, c: Claim, p: Page, step: string, input: TaskInput)
    requires OnPage(db, c, p)
    ensures OnPage(TaskModel.CreateChild(db, c, step, input).db, c, p)
  {
    hide DbInv, BudgetInv;
    Refers(db);
    CreateChildKeeps(db, c, step, input);
    CreateChildKeepsBudget(db, c, step, input);
    CreateChildShape(db, c, step, input);
  }

  lemma Refers(db: Db)
    requires DbInv(db)
    ensures Referenced(db)
  {
  }

  lemma InsertedBook(db: Db, row: Task, run: RunId)
    requires db.nextTask !in db.tasks && row.run == run
    ensures BookOf(MarkRunning(InsertTask(db, row), run), run)
            == Book(BookOf(db, run).kids + {KidOf(row)}, BookOf(db, run).limits)
  {
    var n := MarkRunning(InsertTask(db, row), run);
    assert TasksOf(n, run) == TasksOf(db, run) + {db.nextTask};
    assert forall t :: t in TasksOf(db, run) ==> n.tasks[t] == db.tasks[t];
    assert LimitsOf(n, run) == LimitsOf(db, run);
  }

  lemma RecordedBook(db: Db, run: RunId, task: TaskId, role: string, url: PageUrl, reason: Reason)
    ensures BookOf(TaskModel.RecordLimit(db, run, task, role, url, reason), run)
         == Book(BookOf(db, run).kids, BookOf(db, run).limits + {LimitEvent(run, task, role, url, reason)})
  {
    var n := TaskModel.RecordLimit(db, run, task, role, url, reason);
    assert TasksOf(n, run) == TasksOf(db, run);
    assert LimitsOf(n, run) == LimitsOf(db, run) + {LimitEvent(run, task, role, url, reason)};
  }

  /** Requesting a child for the page is adding it to the book. */
  lemma ChildOnBook(db: Db, c: Claim, p: Page, step: string, input: TaskInput)
    requires OnPage(db, c, p) && input.url != EMPTY_URL
    ensures var r, b := TaskModel.CreateChild(db, c, step, input), BookOf(db, p.run);
            && BookOf(r.db, p.run) == AddChild(p, b, step, input)
            && (r.reply.TaskExists? <==> Known(b, step, input.url))
            && (r.reply.TaskCreated? <==> !Known(b, step, input.url) && Refusal(p, b, step, input.url).None?)
            && (!r.reply.TaskExists? && !r.reply.TaskCreated? ==>
                  r.reply.BudgetExceeded? && Refusal(p, b, step, input.url) == Some(r.reply.reason))
  {
    hide DbInv, BudgetInv, BookOf, FindWork, ChildBudgetReason, Known, Mine, Refusal, MarkRunning, InsertTask;
    LookupIsKnown(db, p, step, input);
    RefusalIsReason(db, c, p, step, input);
    var row := Task(p.run, Some(p.task), step, Workflow, input, p.depth + 1, db.now, TaskQueued, 0, 5, None, "", None,
                    false, "", None);
    Refers(db);
    InsertedBook(db, row, p.run);
    if Refusal(p, BookOf(db, p.run), step, input.url).Some? {
      RecordedBook(db, p.run, p.task, step, input.url, Refusal(p, BookOf(db, p.run), step, input.url).value);
    }
  }

  lemma DetailOnBook(db: Db, c: Claim, p: Page, url: PageUrl, count: nat)
    requires OnPage(db, c, p) && url != EMPTY_URL
    ensures var r, b := ExpandDetail(db, p.run, c, url, count), BookOf(db, p.run);
            && OnPage(r.db, c, p) && BookOf(r.db, p.run) == AddChild(p, b, "detail", DetailInput(url))
            && r.reply == Some(count + if Counts(p, b, url) then 1 else 0)
  {
    hide TaskModel.CreateChild;
    LookupIsKnown(db, p, "detail", DetailInput(url));
    ChildOnBook(db, c, p, "detail", DetailInput(url));
    ChildStaysOnPage(db, c, p, "detail", DetailInput(url));
  }

  lemma {:induction false} DetailsOnBook(db: Db, c: Claim, p: Page, details: seq<PageUrl>)
    requires OnPage(db, c, p) && EMPTY_URL !in details
    ensures var r := ExpandDetails(db, p.run, c, details);
            OnPage(r.db, c, p) && r.reply.Some? && (BookOf(r.db, p.run), r.reply.value)
                == AddDetails(p, BookOf(db, p.run), details)
  {
    hide OnPage, BookOf, ExpandDetail;
    if details != [] {
      var front := details[..|details| - 1];
      DetailsOnBook(db, c, p, front);
      var before := ExpandDetails(db, p.run, c, front);
      DetailOnBook(before.db, c, p, details[|details| - 1], before.reply.value);
    }
  }

  lemma NextOnBook(db: Db, c: Claim, p: Page, rules: ListingRules, v: Visit, newDetails: nat)
    requires OnPage(db, c, p)
    ensures var r, n := ExpandNext(db, p.run, c, rules, v, newDetails),
            AddNext(p, rules, BookOf(db, p.run), v, newDetails);
            r.reply == Expanded(n.1) && BookOf(r.db, p.run) == n.0
  {
    hide TaskModel.CreateChild, BookOf, DbInv, BudgetInv, FindWork, Known, Mine, Refusal;
    var streak := EmptyStreak(v, newDetails);
    RecordedBook(db, p.run, p.task, "list", v.next, MaxPages);
    if v.next != EMPTY_URL {
      LookupIsKnown(db, p, "list", DetailInput(v.next));
      ChildOnBook(db, c, p, "list", ListInput(v, streak));
    }
  }

  lemma RecordingStaysOnPage(db: Db, c: Claim, p: Page, e: LimitEvent)
    requires OnPage(db, c, p)
    ensures OnPage(db.(limits := db.limits + {e}), c, p)
  {
    hide BudgetInv, DbInv;
    var n := db.(limits := db.limits + {e});
    KeptKeeps(db, n);
    LimitsDoNotCount(db, n);
  }

  lemma TruncationOnBook(db: Db, c: Claim, p: Page, v: Visit)
    requires OnPage(db, c, p)
    ensures OnPage(RecordTruncation(db, p.run, c, v), c, p)
    ensures BookOf(RecordTruncation(db, p.run, c, v), p.run) == Truncated(p, BookOf(db, p.run), v)
  {
    hide OnPage, BookOf;
    ClaimOfPage(db, c, p);
    RecordingStaysOnPage(db, c, p, LimitEvent(p.run, p.task, "detail", v.final, MaxDiscoveredPerPage));
    RecordedBook(db, p.run, p.task, "detail", v.final, MaxDiscoveredPerPage);
  }

  lemma ClaimOfPage(db: Db, c: Claim, p: Page)
    requires OnPage(db, c, p)
    ensures c.task == p.task
  {
  }

  /** Expanding a page in the database is expanding it in the book. */
  lemma ExpandOnBook(db: Db, c: Claim, p: Page, rules: ListingRules, v: Visit)
    requires OnPage(db, c, p) && EMPTY_URL !in v.details && IndexInRange(rules, v)
    ensures var r, n := ExpandPage(db, p.run, c, rules, v), Expand(p, rules, BookOf(db, p.run), v);
            r.reply == Expanded(n.1) && BookOf(r.db, p.run) == n.0
  {
    hide OnPage, BookOf, AddNext, ExpandNext;
    TruncationOnBook(db, c, p, v);
    var start := RecordTruncation(db, p.run, c, v);
    DetailsOnBook(start, c, p, KeptDetails(v));
    var done := ExpandDetails(start, p.run, c, KeptDetails(v));
    NextOnBook(done.db, c, p, rules, v, done.reply.value);
  }

  // ----- A crash and the next attempt ------------------------------------------------------------------

  /** Anything but a limit or a child of this run: claims, leases, recoveries, endings, time and other runs. */
  ghost predicate Bystander(s: Sys, a: Action, run: RunId) {
    && LimitsOf(Next(s, a).db, run) == LimitsOf(s.db, run)
    && !(a.CreateChild? && a.claim.task in s.db.tasks && s.db.tasks[a.claim.task].run == run)
  }

  lemma NewRowsOfOtherRuns(s: Sys, a: Action, run: RunId, t: TaskId)
    requires Inv(s) && run in s.db.runs && Bystander(s, a, run) && FootprintOf(s, a).inserts
    requires t in Next(s, a).db.tasks && t !in s.db.tasks
    ensures Next(s, a).db.tasks[t].run != run
  {
    InvImpliesOrder(s);
    RunIsOld(s, run);
    hide Next, Inv, TaskModel.CreateChild, LimitsOf;
    if a.CreateChild? {
      ChildStep(s, a.claim, a.step, a.input);
      CreateChildShape(s.db, a.claim, a.step, a.input);
    } else {
      RootHasNoParent(s, a, t);
    }
  }

  lemma RunIsOld(s: Sys, run: RunId)
    requires Inv(s) && run in s.db.runs
    ensures run < s.db.nextRun
  {
  }

  lemma BystanderKeepsBook(s: Sys, a: Action, run: RunId)
    requires Inv(s) && run in s.db.runs && Bystander(s, a, run)
    ensures run in Next(s, a).db.runs && BookOf(Next(s, a).db, run) == BookOf(s.db, run)
  {
    hide Next, Inv;
    StepKeepsInv(s, a);
    var n := Next(s, a).db;
    forall t: TaskId ensures t in n.tasks && n.tasks[t].run == run <==> t in s.db.tasks && s.db.tasks[t].run == run {
      if t in s.db.tasks {
        PlaceKept(s.db, n, FootprintOf(s, a), t);
      } else if t in n.tasks {
        NewRowsOfOtherRuns(s, a, run, t);
      }
    }
    assert TasksOf(n, run) == TasksOf(s.db, run);
    forall t | t in TasksOf(s.db, run) ensures KidOf(n.tasks[t]) == KidOf(s.db.tasks[t]) {
      PlaceKept(s.db, n, FootprintOf(s, a), t);
    }
  }

  lemma {:induction false} BystandersKeepBook(s: Sys, acts: seq<Action>, run: RunId)
    requires Inv(s) && run in s.db.runs && forall i :: 0 <= i < |acts| ==> Bystander(Exec(s, acts[..i]), acts[i], run)
    ensures run in Exec(s, acts).db.runs && BookOf(Exec(s, acts).db, run) == BookOf(s.db, run)
    decreases |acts|
  {
    hide Next, Inv, Bystander, BookOf;
    if acts != [] {
      var front := acts[..|acts| - 1];
      assert forall i :: 0 <= i < |front| ==> acts[..i] == front[..i] && acts[i] == front[i];
      BystandersKeepBook(s, front, run);
      InvAlways(s, front);
      BystanderKeepsBook(Exec(s, front), acts[|acts| - 1], run);
    }
  }

  /** The invariant only looks at the tables and the program counters. */
  lemma InvIgnoresEffects(s: Sys, n: Sys)
    requires Inv(s) && n.db == s.db && n.procs == s.procs
    ensures Inv(n)
  {
  }

  lemma ChildKeepsInv(s: Sys, c: Claim, step: string, input: TaskInput)
    requires Inv(s)
    ensures Inv(s.(db := TaskModel.CreateChild(s.db, c, step, input).db))
  {
    hide Inv, DbMove;
    StepKeepsInv(s, CreateChild(c, step, input));
    InvIgnoresEffects(Next(s, CreateChild(c, step, input)), s.(db := TaskModel.CreateChild(s.db, c, step, input).db));
  }

  lemma RecordKeepsInv(s: Sys, run: RunId, task: TaskId, role: string, url: PageUrl, reason: Reason)
    requires Inv(s) && run in s.db.runs && task in s.db.tasks
    ensures Inv(s.(db := TaskModel.RecordLimit(s.db, run, task, role, url, reason)))
  {
    hide Inv, DbMove;
    StepKeepsInv(s, RecordLimit(run, task, role, url, reason));
  }

  lemma {:induction false} DetailsKeepInv(s: Sys, run: RunId, c: Claim, details: seq<PageUrl>)
    requires Inv(s)
    ensures Inv(s.(db := ExpandDetails(s.db, run, c, details).db))
  {
    hide Inv, TaskModel.CreateChild;
    if details == [] {
      assert s.(db := s.db) == s;
    } else {
      var front, url := details[..|details| - 1], details[|details| - 1];
      DetailsKeepInv(s, run, c, front);
      ChildKeepsInv(s.(db := ExpandDetails(s.db, run, c, front).db), c, "detail", DetailInput(url));
    }
  }

  lemma PageKeepsInv(s: Sys, c: Claim, p: Page, v: Visit, k: nat)
    requires Inv(s) && OnPage(s.db, c, p) && k <= |KeptDetails(v)|
    ensures Inv(s.(db := ExpandDetails(RecordTruncation(s.db, p.run, c, v), p.run, c, KeptDetails(v)[..k]).db))
  {
    hide Inv, DbInv, BudgetInv, ExpandDetails;
    RecordKeepsInv(s, p.run, c.task, "detail", v.final, MaxDiscoveredPerPage);
    assert s.(db := s.db) == s;
    DetailsKeepInv(s.(db := RecordTruncation(s.db, p.run, c, v)), p.run, c, KeptDetails(v)[..k]);
  }

  lemma FullPageKeepsInv(s: Sys, c: Claim, p: Page, rules: ListingRules, v: Visit)
    requires Inv(s) && OnPage(s.db, c, p) && EMPTY_URL !in v.details && IndexInRange(rules, v)
    ensures var n := ExpandPage(s.db, p.run, c, rules, v).db; Inv(s.(db := n)) && p.run in n.runs
  {
    hide Inv, OnPage, BookOf, TaskModel.CreateChild, ExpandDetails;
    var start := RecordTruncation(s.db, p.run, c, v);
    TruncationOnBook(s.db, c, p, v);
    DetailsOnBook(start, c, p, KeptDetails(v));
    assert KeptDetails(v)[..|KeptDetails(v)|] == KeptDetails(v);
    PageKeepsInv(s, c, p, v, |KeptDetails(v)|);
    var done := ExpandDetails(start, p.run, c, KeptDetails(v));
    NextKeepsInv(s.(db := done.db), c, p, rules, v, done.reply.value);
  }

  lemma NextKeepsInv(s: Sys, c: Claim, p: Page, rules: ListingRules, v: Visit, newDetails: nat)
    requires Inv(s) && OnPage(s.db, c, p)
    ensures var n := ExpandNext(s.db, p.run, c, rules, v, newDetails).db; Inv(s.(db := n)) && p.run in n.runs
  {
    hide Inv, DbInv, BudgetInv, TaskModel.CreateChild;
    ChildKeepsInv(s, c, "list", ListInput(v, EmptyStreak(v, newDetails)));
    ChildStaysOnPage(s.db, c, p, "list", ListInput(v, EmptyStreak(v, newDetails)));
    RecordKeepsInv(s, p.run, c.task, "list", v.next, MaxPages);
    assert s.(db := s.db) == s;
  }

  /**
   A worker dies on a list page after any `k` of its details.  Its lease runs out, other processes do what
   they do elsewhere, and some attempt of the task claims the page again: it ends with the children, limits,
   count, streak and stop reason of an execution that was never interrupted.
   */
  lemma InterruptedPageIsMadeUp(s: Sys, c: Claim, p: Page, rules: ListingRules, v: Visit, k: nat, acts: seq<Action>,
                                d: Claim)
    requires Inv(s) && OnPage(s.db, c, p) && EMPTY_URL !in v.details && IndexInRange(rules, v) && k <= |KeptDetails(v)|
    requires var dead := s.(db := ExpandDetails(RecordTruncation(s.db, p.run, c, v), p.run, c, KeptDetails(v)[..k]).db);
             && (forall i :: 0 <= i < |acts| ==> Bystander(Exec(dead, acts[..i]), acts[i], p.run))
             && OnPage(Exec(dead, acts).db, d, p)
    ensures var dead := s.(db := ExpandDetails(RecordTruncation(s.db, p.run, c, v), p.run, c, KeptDetails(v)[..k]).db);
            var once, again := ExpandPage(s.db, p.run, c, rules, v),
                ExpandPage(Exec(dead, acts).db, p.run, d, rules, v);
            again.reply == once.reply && BookOf(again.db, p.run) == BookOf(once.db, p.run)
  {
    hide OnPage, Inv, BookOf, Bystander, Next, ExpandPage, ExpandDetails, Expand;
    var start := RecordTruncation(s.db, p.run, c, v);
    var dead := s.(db := ExpandDetails(start, p.run, c, KeptDetails(v)[..k]).db);
    TruncationOnBook(s.db, c, p, v);
    DetailsOnBook(start, c, p, KeptDetails(v)[..k]);
    RunOfPage(dead.db, c, p);
    PageKeepsInv(s, c, p, v, k);
    BystandersKeepBook(dead, acts, p.run);
    BookIsUnique(s.db, c, p);
    CrashAmongDetailsIsMadeUp(p, rules, BookOf(s.db, p.run), v, k);
    ExpandOnBook(s.db, c, p, rules, v);
    ExpandOnBook(Exec(dead, acts).db, d, p, rules, v);
  }

  lemma RunOfPage(db: Db, c: Claim, p: Page)
    requires OnPage(db, c, p)
    ensures p.run in db.runs
  {
  }

  lemma BookIsUnique(db: Db, c: Claim, p: Page)
    requires OnPage(db, c, p)
    ensures Unique(BookOf(db, p.run))
  {
    BookCounts(db, p);
  }

  /**
   The same for a worker that dies when all children exist, just before it completes its task: nothing is
   created twice and the answer is the same; a new limit appears only in the case described there.
   */
  lemma FinishedPageIsNotRepeated(s: Sys, c: Claim, p: Page, rules: ListingRules, v: Visit, acts: seq<Action>, d: Claim)
    requires Inv(s) && OnPage(s.db, c, p) && EMPTY_URL !in v.details && IndexInRange(rules, v)
    requires var dead := s.(db := ExpandPage(s.db, p.run, c, rules, v).db);
             && (forall i :: 0 <= i < |acts| ==> Bystander(Exec(dead, acts[..i]), acts[i], p.run))
             && OnPage(Exec(dead, acts).db, d, p)
    ensures var once := ExpandPage(s.db, p.run, c, rules, v);
            var again := ExpandPage(Exec(s.(db := once.db), acts).db, p.run, d, rules, v);
            && again.reply == once.reply && BookOf(again.db, p.run).kids == BookOf(once.db, p.run).kids
            && (BookOf(again.db, p.run) == BookOf(once.db, p.run) <==> !ShowsCrash(p, rules, BookOf(s.db, p.run), v))
  {
    hide OnPage, Inv, BookOf, Bystander, Next, ExpandPage, Expand, ShowsCrash;
    var dead := s.(db := ExpandPage(s.db, p.run, c, rules, v).db);
    FullPageKeepsInv(s, c, p, rules, v);
    BystandersKeepBook(dead, acts, p.run);
    BookIsUnique(s.db, c, p);
    CrashAfterNextPage(p, rules, BookOf(s.db, p.run), v);
    ExpandOnBook(s.db, c, p, rules, v);
    ExpandOnBook(Exec(dead, acts).db, d, p, rules, v);
  }
}
