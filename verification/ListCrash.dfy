/**
 A run of the system in which a crash after the next page was created shows: the page allows one detail and its
 run three tasks, the page has two details and a next page.  The second attempt notes that the second detail was
 refused for lack of tasks, which an attempt that is not interrupted never does.
 */
module ListCrash {
  import opened Common
  import opened CrawlPolicy
  import opened TaskModel
  import opened TaskSystem
  import opened Ownership
  import opened Protocol
  import opened BudgetSafety
  import opened ListingReplay
  import opened Listing
  import opened ListingRecovery
  import opened ListPath
  import opened ListWorkers
  import opened ListLoop

  /** The steps of a worker that nobody disturbs, as steps of the floor. */
  function Turns(w: ProcId, k: nat): seq<Step> {
    seq(k, _ => Advance(w, 0))
  }

  lemma {:induction false} TurnsAreWork(steps: seq<Step>, run: RunId, site: Site, w: ProcId, k: nat)
    ensures Alone(Work(steps, run, site), run, site, w, k) == Work(steps + Turns(w, k), run, site)
    decreases k
  {
    hide Move;
    if k == 0 {
      assert steps + Turns(w, 0) == steps;
    } else {
      var more := steps + [Advance(w, 0)];
      assert more[..|more| - 1] == steps;
      TurnsAreWork(more, run, site, w, k - 1);
      assert more + Turns(w, k - 1) == steps + Turns(w, k);
    }
  }

  // ----- What a page leaves alone -----------------------------------------------------------------------

  /** The clock, the page's row and its run are the same; the run may have started. */
  predicate SamePage(o: Db, n: Db, t: TaskId, run: RunId) {
    && n.now == o.now && t in o.tasks && t in n.tasks && n.tasks[t] == o.tasks[t]
    && run in o.runs && run in n.runs && n.runs[run].budget == o.runs[run].budget
    && n.runs[run].createdAt == o.runs[run].createdAt && (RunIsActive(o, run) ==> RunIsActive(n, run))
  }

  lemma ChildLeavesPage(db: Db, c: Claim, step: string, input: TaskInput)
    requires DbInv(db) && c.task in db.tasks && db.tasks[c.task].run in db.runs
    ensures SamePage(db, TaskModel.CreateChild(db, c, step, input).db, c.task, db.tasks[c.task].run)
  {
    hide TaskModel.CreateChild;
    Refers(db);
    CreateChildShape(db, c, step, input);
  }

  lemma DetailLeavesPage(db: Db, c: Claim, p: Page, url: PageUrl, count: nat)
    requires OnPage(db, c, p)
    ensures SamePage(db, ExpandDetail(db, p.run, c, url, count).db, c.task, p.run)
  {
    hide BudgetInv, DbInv, TaskModel.CreateChild, TaskByUrl, SamePage;
    ChildLeavesPage(db, c, "detail", DetailInput(url));
    SamePageAgain(db, c.task, p.run);
  }

  lemma SamePageAgain(db: Db, t: TaskId, run: RunId)
    requires t in db.tasks && run in db.runs
    ensures SamePage(db, db, t, run)
  {
  }

  lemma {:induction false} DetailsLeavePage(db: Db, c: Claim, p: Page, details: seq<PageUrl>)
    requires OnPage(db, c, p) && EMPTY_URL !in details
    ensures SamePage(db, ExpandDetails(db, p.run, c, details).db, c.task, p.run)
  {
    hide DbInv, BudgetInv, ExpandDetail;
    if details != [] {
      var front := details[..|details| - 1];
      DetailsLeavePage(db, c, p, front);
      DetailsOnBook(db, c, p, front);
      var before := ExpandDetails(db, p.run, c, front);
      DetailLeavesPage(before.db, c, p, details[|details| - 1], before.reply.value);
    }
  }

  lemma ExpandLeavesPage(db: Db, c: Claim, p: Page, rules: ListingRules, v: Visit)
    requires OnPage(db, c, p) && EMPTY_URL !in v.details && IndexInRange(rules, v)
    ensures SamePage(db, ExpandPage(db, p.run, c, rules, v).db, c.task, p.run)
  {
    hide DbInv, BudgetInv, TaskModel.CreateChild, StopAfter, ExpandDetails;
    TruncationOnBook(db, c, p, v);
    var start := RecordTruncation(db, p.run, c, v);
    DetailsLeavePage(start, c, p, KeptDetails(v));
    DetailsOnBook(start, c, p, KeptDetails(v));
    var done := ExpandDetails(start, p.run, c, KeptDetails(v));
    ChildLeavesPage(done.db, c, "list", ListInput(v, EmptyStreak(v, done.reply.value)));
  }

  // ----- The run ----------------------------------------------------------------------------------------

  const SITE := Site(_ => TWO_DETAILS.details, _ => TWO_DETAILS.next, _ => TWO_DETAILS.final, SOME_RULES)

  /** The run starts and its first worker takes the page and stores the document. */
  const OPENING: seq<Step> := [Act(StartRun(TIGHT_PAGE.budget, TWO_DETAILS.input)), Take(1, 0, "first", 60),
                               Advance(1, 0)]

  /** The worker dies, its lease runs out and another worker takes the page. */
  const CRASH: seq<Step> := [Die(1), Act(Tick(61)), Take(2, 0, "second", 60)]

  /** Worker `w` alone holds the page, with the document and before its first step on it. */
  ghost predicate AtPage(f: Floor, w: ProcId, c: Claim) {
    && f.visitors == map[w := Visitor(c, Some(0), Holding)] && Inv(f.sys) && OnPage(f.sys.db, c, TIGHT_PAGE)
    && f.sys.db.tasks[0].step == "trigger" && f.sys.db.tasks[0].input == TWO_DETAILS.input
  }

  lemma Work3(steps: seq<Step>, a: Step, b: Step, c: Step, run: RunId, site: Site)
    ensures Work(steps + [a, b, c], run, site)
         == Move(Move(Move(Work(steps, run, site), run, site, a), run, site, b), run, site, c)
  {
    hide Move;
    var one, two, three := steps + [a], steps + [a, b], steps + [a, b, c];
    assert one[..|one| - 1] == steps && two[..|two| - 1] == one && three[..|three| - 1] == two;
    assert Work(two, run, site) == Move(Work(one, run, site), run, site, b);
  }

  /** What an undisturbed worker makes of the page. */
  lemma PageWork(f: Floor, w: ProcId, c: Claim) returns (k: nat)
    requires AtPage(f, w, c)
    ensures var g, n := Alone(f, 0, SITE, w, k), Expand(TIGHT_PAGE, SOME_RULES, BookOf(f.sys.db, 0), TWO_DETAILS);
            && BookOf(g.sys.db, 0) == n.0 && SamePage(f.sys.db, g.sys.db, 0, 0)
            && g.visitors == map[w := Visitor(c, Some(0), Done(n.1))]
  {
    hide Inv, DbInv, BudgetInv, Expand, ExpandPage, BookOf, Alone;
    assert VisitOf(f.sys.db, SITE, f.visitors[w]) == TWO_DETAILS;
    k := UndisturbedIsExpandPage(f, 0, SITE, w, c, 0);
    UsableDetails();
    ExpandOnBook(f.sys.db, c, TIGHT_PAGE, SOME_RULES, TWO_DETAILS);
    ExpandLeavesPage(f.sys.db, c, TIGHT_PAGE, SOME_RULES, TWO_DETAILS);
  }

  lemma UsableDetails()
    ensures EMPTY_URL !in TWO_DETAILS.details && IndexInRange(SOME_RULES, TWO_DETAILS)
  {
    assert URL1.scheme == URL2.scheme == "http" && |"http"| == 4;
  }

  /** The page's row while its first attempt runs. */
  ghost predicate FirstAttempt(db: Db) {
    && db.now == 0 && 0 in db.tasks && 0 in db.runs
    && db.tasks[0] == Task(0, None, "trigger", Workflow, TWO_DETAILS.input, 0, 0, TaskRunning, 1, 5, None, "first",
                           Some(60), false, "", Some(0))
    && RunActive(db.runs[0].status) && db.runs[0].budget == Some(TIGHT_PAGE.budget) && db.runs[0].createdAt == 0
  }

  const WAITING_ROW := Task(0, None, "trigger", Workflow, TWO_DETAILS.input, 0, 0, TaskQueued, 0, 5, None, "", None,
                            false, "", None)

  lemma Starts(f: Floor)
    requires f == Floor(Init(), map[])
    ensures var n := Move(f, 0, SITE, OPENING[0]);
            && n.visitors == map[] && n.sys.db.now == 0 && n.sys.db.tasks == map[0 := WAITING_ROW]
            && n.sys.db.runs == map[0 := Run(RunQueued, Some(TIGHT_PAGE.budget), 0)]
            && n.sys.db.limits == {} && n.sys.db.attempts == map[]
  {
  }

  lemma Takes(f: Floor)
    requires f.visitors == map[] && f.sys.db.now == 0 && f.sys.db.tasks == map[0 := WAITING_ROW]
    requires f.sys.db.runs == map[0 := Run(RunQueued, Some(TIGHT_PAGE.budget), 0)] && f.sys.db.attempts == map[]
    ensures var n := Move(f, 0, SITE, OPENING[1]);
            && n.visitors == map[1 := Visitor(Claim(0, "first", 1), None, Holding)]
            && n.sys.db.tasks.Keys == {0}
            && FirstAttempt(n.sys.db.(tasks := n.sys.db.tasks[0 := n.sys.db.tasks[0].(document := Some(0))]))
            && n.sys.db.limits == f.sys.db.limits
  {
  }

  lemma Stores(f: Floor)
    requires f.visitors == map[1 := Visitor(Claim(0, "first", 1), None, Holding)] && f.sys.db.tasks.Keys == {0}
    requires FirstAttempt(f.sys.db.(tasks := f.sys.db.tasks[0 := f.sys.db.tasks[0].(document := Some(0))]))
    ensures var n := Move(f, 0, SITE, OPENING[2]);
            && n.visitors == map[1 := Visitor(Claim(0, "first", 1), Some(0), Holding)]
            && n.sys.db.tasks.Keys == {0} && FirstAttempt(n.sys.db) && n.sys.db.limits == f.sys.db.limits
  {
  }

  lemma FirstBook(db: Db)
    requires FirstAttempt(db) && db.tasks.Keys == {0} && db.limits == {}
    ensures BookOf(db, 0) == Book({ROOT_KID}, {})
  {
    assert TasksOf(db, 0) == {0};
  }

  /** The tables after any steps are sound. */
  lemma WorkIsSound(steps: seq<Step>, run: RunId, site: Site)
    ensures Inv(Work(steps, run, site).sys) && BudgetInv(Work(steps, run, site).sys.db)
  {
    hide Inv, BudgetInv;
    FloorHolds(steps, run, site);
  }

  lemma FirstAtPage(f: Floor)
    requires FirstAttempt(f.sys.db) && f.visitors == map[1 := Visitor(Claim(0, "first", 1), Some(0), Holding)]
    requires Inv(f.sys) && BudgetInv(f.sys.db)
    ensures AtPage(f, 1, Claim(0, "first", 1))
  {
    hide DbInv, BudgetInv;
  }

  lemma Opens()
    ensures var f := Work(OPENING, 0, SITE);
            && FirstAttempt(f.sys.db) && AtPage(f, 1, Claim(0, "first", 1))
            && BookOf(f.sys.db, 0) == Book({ROOT_KID}, {})
  {
    hide BookOf, Move, Inv, FirstAttempt, AtPage, BudgetInv;
    var start := Work([], 0, SITE);
    Work3([], OPENING[0], OPENING[1], OPENING[2], 0, SITE);
    assert [] + [OPENING[0], OPENING[1], OPENING[2]] == OPENING;
    Starts(start);
    Takes(Move(start, 0, SITE, OPENING[0]));
    Stores(Move(Move(start, 0, SITE, OPENING[0]), 0, SITE, OPENING[1]));
    WorkIsSound(OPENING, 0, SITE);
    FirstBook(Work(OPENING, 0, SITE).sys.db);
    FirstAtPage(Work(OPENING, 0, SITE));
  }

  /** The page's row while its second attempt runs. */
  ghost predicate SecondAttempt(db: Db) {
    && db.now == 61 && 0 in db.tasks && 0 in db.runs
    && db.tasks[0] == Task(0, None, "trigger", Workflow, TWO_DETAILS.input, 0, 0, TaskRunning, 2, 5, None, "second",
                           Some(121), false, "", Some(0))
    && RunActive(db.runs[0].status) && db.runs[0].budget == Some(TIGHT_PAGE.budget) && db.runs[0].createdAt == 0
  }

  /** Nobody has tried a second time. */
  lemma NoSecondAttempt(s: Sys)
    requires Inv(s) && FirstAttempt(s.db)
    ensures AttemptKey(0, 2) !in s.db.attempts
  {
  }

  lemma TakenAgain(f: Floor)
    requires FirstAttempt(f.sys.db.(now := 0)) && f.sys.db.now == 61 && AttemptKey(0, 2) !in f.sys.db.attempts
    requires f.visitors == map[]
    ensures var n := Move(f, 0, SITE, CRASH[2]);
            && n.visitors == map[2 := Visitor(Claim(0, "second", 2), Some(0), Holding)] && SecondAttempt(n.sys.db)
            && n.sys.db.limits == f.sys.db.limits
            && n.sys.db.tasks == f.sys.db.tasks[0 := n.sys.db.tasks[0]]
  {
    hide CloseAttempts;
  }

  lemma SameBook(o: Db, n: Db, t: TaskId, run: RunId)
    requires n.limits == o.limits && t in o.tasks && t in n.tasks && n.tasks == o.tasks[t := n.tasks[t]]
    requires KidOf(n.tasks[t]) == KidOf(o.tasks[t]) && n.tasks[t].run == o.tasks[t].run
    ensures BookOf(n, run) == BookOf(o, run)
  {
    assert TasksOf(n, run) == TasksOf(o, run);
    assert forall u :: u in o.tasks ==> KidOf(n.tasks[u]) == KidOf(o.tasks[u]);
  }

  lemma ClockTicks(f: Floor)
    ensures Move(f, 0, SITE, CRASH[1]) == f.(sys := f.sys.(db := f.sys.db.(now := f.sys.db.now + 61)))
  {
  }

  lemma WorkerDies(f: Floor)
    ensures Move(f, 0, SITE, CRASH[0]) == f.(visitors := f.visitors - {1})
  {
  }

  lemma SecondAtPage(f: Floor)
    requires SecondAttempt(f.sys.db) && f.visitors == map[2 := Visitor(Claim(0, "second", 2), Some(0), Holding)]
    requires Inv(f.sys) && BudgetInv(f.sys.db)
    ensures AtPage(f, 2, Claim(0, "second", 2))
  {
    hide DbInv, BudgetInv;
  }

  lemma StillFirst(o: Db, n: Db)
    requires FirstAttempt(o) && SamePage(o, n, 0, 0)
    ensures FirstAttempt(n)
  {
  }

  /** From the finished page to the second worker at the page. */
  lemma Crashes(steps: seq<Step>)
    requires FirstAttempt(Work(steps, 0, SITE).sys.db) && Work(steps, 0, SITE).visitors.Keys == {1}
    ensures var f, n := Work(steps, 0, SITE), Work(steps + CRASH, 0, SITE);
            AtPage(n, 2, Claim(0, "second", 2)) && BookOf(n.sys.db, 0) == BookOf(f.sys.db, 0)
  {
    hide BookOf, Move, Inv, AtPage, BudgetInv;
    var f := Work(steps, 0, SITE);
    Work3(steps, CRASH[0], CRASH[1], CRASH[2], 0, SITE);
    assert steps + [CRASH[0], CRASH[1], CRASH[2]] == steps + CRASH;
    WorkIsSound(steps, 0, SITE);
    NoSecondAttempt(f.sys);
    WorkerDies(f);
    var dead := Move(f, 0, SITE, CRASH[0]);
    ClockTicks(dead);
    var later := Move(dead, 0, SITE, CRASH[1]);
    assert later.sys.db.(now := 0) == f.sys.db && dead.visitors == map[];
    TakenAgain(later);
    SameBook(f.sys.db, Work(steps + CRASH, 0, SITE).sys.db, 0, 0);
    WorkIsSound(steps + CRASH, 0, SITE);
    SecondAtPage(Work(steps + CRASH, 0, SITE));
  }

  /**
   The first worker finishes the page and dies before it completes its task; the second one finishes the page
   again with the same outcome and creates no task, but notes a refusal that was not there.
   */
  lemma ACrashShows() returns (j: nat, k: nat)
    ensures var first := OPENING + Turns(1, j);
            var once, twice := Work(first, 0, SITE), Work(first + CRASH + Turns(2, k), 0, SITE);
            && once.visitors == map[1 := Visitor(Claim(0, "first", 1), Some(0), Done(Outcome(1, 0, GoOn)))]
            && twice.visitors == map[2 := Visitor(Claim(0, "second", 2), Some(0), Done(Outcome(1, 0, GoOn)))]
            && LimitEvent(0, 0, "detail", URL2, MaxTasks) !in once.sys.db.limits
            && BookOf(twice.sys.db, 0) == Note(TIGHT_PAGE, BookOf(once.sys.db, 0), "detail", URL2, MaxTasks)
  {
    hide Inv, FirstAttempt, AtPage, SamePage, Expand, BookOf, Work, Alone;
    Opens();
    j := PageWork(Work(OPENING, 0, SITE), 1, Claim(0, "first", 1));
    TurnsAreWork(OPENING, 0, SITE, 1, j);
    var first := OPENING + Turns(1, j);
    StillFirst(Work(OPENING, 0, SITE).sys.db, Work(first, 0, SITE).sys.db);
    Crashes(first);
    k := PageWork(Work(first + CRASH, 0, SITE), 2, Claim(0, "second", 2));
    TurnsAreWork(first + CRASH, 0, SITE, 2, k);
    CrashCanShow();
    NotRefusedYet(Work(first, 0, SITE).sys.db);
  }

  lemma NotRefusedYet(db: Db)
    ensures LimitEvent(0, 0, "detail", URL2, MaxTasks) in db.limits ==>
              LimitEvent(0, 0, "detail", URL2, MaxTasks) in BookOf(db, 0).limits
  {
  }
}
