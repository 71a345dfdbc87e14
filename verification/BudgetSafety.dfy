/**
 The budget of a run holds at every moment of every run of the system, however many workers create
 tasks, reserve pages and follow redirects at the same time.
 */
module BudgetSafety {
  import opened Common
  import opened CrawlPolicy
  import opened TaskModel
  import opened TaskSystem
  import opened Ownership
  import opened Protocol

  predicate Budgeted(db: Db, run: RunId) {
    run in db.runs && db.runs[run].budget.Some? && InRange(db.runs[run].budget.value)
  }

  function BudgetOf(db: Db, run: RunId): Budget
    requires Budgeted(db, run)
  {
    db.runs[run].budget.value
  }

  /** A host that the budget lists, letter case aside. */
  predicate Listed(b: Budget, host: string) {
    exists i :: 0 <= i < |b.allowedDomains| && EqualFold(host, b.allowedDomains[i])
  }

  /** Every run has a budget of the published ranges. */
  ghost predicate AllBudgeted(db: Db) {
    forall r :: r in db.runs ==> Budgeted(db, r)
  }

  /** The root stands at depth 0; a child one deeper than its parent, no deeper than allowed, at an admitted address. */
  ghost predicate Placed(db: Db, t: TaskId)
    requires t in db.tasks
  {
    var row := db.tasks[t];
    && row.kind == Workflow
    && (row.parent.None? ==> row.depth == 0)
    && (row.parent.Some? ==>
          && row.parent.value in db.tasks && row.depth == db.tasks[row.parent.value].depth + 1
          && Budgeted(db, row.run) && row.depth <= BudgetOf(db, row.run).maxDepth
          && Admits(BudgetOf(db, row.run), row.input.url))
    && (row.pageReserved ==> Domain(row.run, row.pageHost) in db.domains)
  }

  ghost predicate AllPlaced(db: Db) {
    forall t :: t in db.tasks ==> Placed(db, t)
  }

  /** No two tasks of a run do the same step on the same address. */
  ghost predicate Distinct(db: Db) {
    forall t, u ::
          t in db.tasks && u in db.tasks && t != u
          && db.tasks[t].run == db.tasks[u].run && db.tasks[t].step == db.tasks[u].step ==>
      db.tasks[t].input.url != db.tasks[u].input.url
  }

  ghost predicate HostsListed(db: Db) {
    forall d :: d in db.domains ==> Budgeted(db, d.run) && Listed(BudgetOf(db, d.run), d.host)
  }

  ghost predicate WithinCounts(db: Db, run: RunId)
    requires Budgeted(db, run)
  {
    var b := BudgetOf(db, run);
    && |TasksOf(db, run)| <= b.maxTasks
    && |PagesOf(db, run)| <= b.maxPages
    && |DomainsOf(db, run)| <= b.maxDomains
    && forall p: TaskId :: |DetailsOf(db, run, p)| <= b.maxDiscoveredPerPage
  }

  ghost predicate AllWithin(db: Db) {
    forall r :: r in db.runs ==> Budgeted(db, r) && WithinCounts(db, r)
  }

  ghost predicate WellShaped(db: Db) {
    AllBudgeted(db) && AllPlaced(db) && Distinct(db) && HostsListed(db)
  }

  ghost predicate BudgetInv(db: Db) {
    WellShaped(db) && AllWithin(db)
  }

  // ----- Steps that insert nothing and visit nothing ----------------------------------------------

  /** What a step keeps of all rows at once. */
  ghost predicate SamePlaces(o: Db, n: Db) {
    && n.tasks.Keys == o.tasks.Keys && n.runs.Keys == o.runs.Keys
    && (forall r :: r in o.runs ==> n.runs[r].budget == o.runs[r].budget)
    && (forall t :: t in o.tasks ==>
          && n.tasks[t].run == o.tasks[t].run && n.tasks[t].parent == o.tasks[t].parent
          && n.tasks[t].step == o.tasks[t].step
          && n.tasks[t].kind == o.tasks[t].kind && n.tasks[t].input == o.tasks[t].input
          && n.tasks[t].depth == o.tasks[t].depth)
  }

  lemma MovedPlaces(o: Db, n: Db, f: Footprint)
    requires DbMove(o, n, f) && !f.inserts && n.runs.Keys <= o.runs.Keys
    ensures SamePlaces(o, n)
  {
    forall t | t in o.tasks
      ensures t in n.tasks && n.tasks[t].run == o.tasks[t].run && n.tasks[t].parent == o.tasks[t].parent
      ensures n.tasks[t].step == o.tasks[t].step
          && n.tasks[t].kind == o.tasks[t].kind && n.tasks[t].input == o.tasks[t].input
          && n.tasks[t].depth == o.tasks[t].depth {
      PlaceKept(o, n, f, t);
    }
  }

  lemma SameCounts(o: Db, n: Db, run: RunId)
    requires SamePlaces(o, n)
    ensures TasksOf(n, run) == TasksOf(o, run)
    ensures forall p: TaskId :: DetailsOf(n, run, p) == DetailsOf(o, run, p)
  {
  }

  lemma PlacesKeepShape(o: Db, n: Db)
    requires SamePlaces(o, n) && WellShaped(o) && o.domains <= n.domains
    requires forall t :: t in n.tasks && n.tasks[t].pageReserved ==>
               (o.tasks[t].pageReserved && n.tasks[t].pageHost == o.tasks[t].pageHost)
                   || Domain(n.tasks[t].run, n.tasks[t].pageHost) in n.domains
    requires forall d :: d in n.domains && d !in o.domains ==> Budgeted(o, d.run) && Listed(BudgetOf(o, d.run), d.host)
    ensures WellShaped(n)
  {
    assert forall r :: r in o.runs ==> Budgeted(o, r) && Budgeted(n, r) && BudgetOf(n, r) == BudgetOf(o, r);
    forall t | t in n.tasks ensures Placed(n, t) {
      assert Placed(o, t);
    }
  }

  lemma FrameKeeps(o: Db, n: Db, f: Footprint)
    requires BudgetInv(o) && DbMove(o, n, f) && !f.inserts && !f.visits && f.paged.None? && n.runs.Keys <= o.runs.Keys
    ensures BudgetInv(n)
  {
    hide DbMove, WellShaped, AllWithin;
    MovedPlaces(o, n, f);
    SlotsKept(o, n, f);
    DomainsKept(o, n, f);
    PlacesKeepShape(o, n);
    CountsKept(o, n);
  }

  lemma DomainsKept(o: Db, n: Db, f: Footprint)
    requires DbMove(o, n, f) && !f.visits
    ensures n.domains == o.domains
  {
  }

  lemma CountsKept(o: Db, n: Db)
    requires SamePlaces(o, n) && AllWithin(o) && n.domains == o.domains
    requires forall t :: t in o.tasks ==> n.tasks[t].pageReserved == o.tasks[t].pageReserved
    ensures AllWithin(n)
  {
    forall r | r in n.runs ensures Budgeted(n, r) && WithinCounts(n, r) {
      assert WithinCounts(o, r);
      SameCounts(o, n, r);
      assert PagesOf(n, r) == PagesOf(o, r) && DomainsOf(n, r) == DomainsOf(o, r);
    }
  }

  lemma SlotsKept(o: Db, n: Db, f: Footprint)
    requires DbMove(o, n, f) && f.paged.None?
    ensures forall t ::
              t in o.tasks ==>
                t in n.tasks && n.tasks[t].pageReserved == o.tasks[t].pageReserved
                && n.tasks[t].pageHost == o.tasks[t].pageHost
  {
    forall t | t in o.tasks
      ensures t in n.tasks && n.tasks[t].pageReserved == o.tasks[t].pageReserved
      ensures n.tasks[t].pageHost == o.tasks[t].pageHost
    {
      RowMoved(o, n, f, t);
    }
  }

  // ----- Pages and domains ------------------------------------------------------------------------

  lemma ReserveDomainFits(db: Db, run: RunId, b: Budget, host: string)
    requires |DomainsOf(db, run)| <= b.maxDomains
    ensures var r := ReserveDomain(db, run, b, host);
            && r.db == db.(domains := r.db.domains) && db.domains <= r.db.domains <= db.domains + {Domain(run, host)}
            && (r.reply.None? ==> Domain(run, host) in r.db.domains)
            && |DomainsOf(r.db, run)| <= b.maxDomains
            && forall other :: other != run ==> DomainsOf(r.db, other) == DomainsOf(db, other)
  {
    var r := ReserveDomain(db, run, b, host);
    if r.db != db {
      assert DomainsOf(r.db, run) == DomainsOf(db, run) + {Domain(run, host)};
    }
  }

  /** What a reservation that admits the page has checked, and what it writes. */
  lemma ReservationShape(db: Db, c: Claim, url: PageUrl)
    ensures var n := TaskModel.ReservePage(db, c, url).db;
            n == db.(limits := n.limits)
            || (&& MayWrite(db, c) && db.runs[db.tasks[c.task].run].budget.Some? && url.PageUrl?
                && var run, t := db.tasks[c.task].run, db.tasks[c.task]; var b := db.runs[run].budget.value;
                && Admits(b, url) && |PagesOf(db, run)| < b.maxPages && ReserveDomain(db, run, b, url.host).reply.None?
                && n == ReserveDomain(db, run, b, url.host).db.(
                          tasks := db.tasks[c.task := t.(pageReserved := true, pageHost := url.host)]))
  {
    hide PagesOf, DomainsOf;
  }

  /** A reserved page adds one slot for its task and at most its own host. */
  lemma ReservePageFits(db: Db, c: Claim, url: PageUrl)
    requires AllWithin(db)
    ensures var n := TaskModel.ReservePage(db, c, url).db;
            n == db.(limits := n.limits)
            || (&& MayWrite(db, c) && Budgeted(db, db.tasks[c.task].run)
                && var run, b := db.tasks[c.task].run, BudgetOf(db, db.tasks[c.task].run);
                && Admits(b, url) && n == db.(domains := n.domains,
                                              tasks := db.tasks[c.task := db.tasks[c.task].(pageReserved := true,
                                                      pageHost := url.host)])
                && db.domains <= n.domains <= db.domains + {Domain(run, url.host)} && Domain(run, url.host) in n.domains
                && |DomainsOf(n, run)| <= b.maxDomains
                && (forall other :: other != run ==> DomainsOf(n, other) == DomainsOf(db, other))
                && |PagesOf(db, run)| < b.maxPages)
  {
    ReservationShape(db, c, url);
    hide TaskModel.ReservePage, Admits;
    var n := TaskModel.ReservePage(db, c, url).db;
    if n != db.(limits := n.limits) {
      var run := db.tasks[c.task].run;
      assert Budgeted(db, run) && WithinCounts(db, run);
      var reserved := ReserveDomain(db, run, BudgetOf(db, run), url.host).db;
      ReserveDomainFits(db, run, BudgetOf(db, run), url.host);
      assert forall r :: DomainsOf(n, r) == DomainsOf(reserved, r);
    }
  }

  lemma ReservePageKeeps(db: Db, c: Claim, url: PageUrl)
    requires BudgetInv(db)
    ensures BudgetInv(TaskModel.ReservePage(db, c, url).db)
  {
    hide WellShaped, AllWithin, TaskModel.ReservePage;
    var n := TaskModel.ReservePage(db, c, url).db;
    ReservePageFits(db, c, url);
    if n == db.(limits := n.limits) {
      LimitsDoNotCount(db, n);
    } else {
      VisitKeepsShape(db, n, db.tasks[c.task].run, url);
      SlotCounts(db, n, c.task);
    }
  }

  /** A visited host is an admitted one. */
  lemma VisitKeepsShape(o: Db, n: Db, run: RunId, url: PageUrl)
    requires WellShaped(o) && SamePlaces(o, n) && Budgeted(o, run) && Admits(BudgetOf(o, run), url)
    requires o.domains <= n.domains <= o.domains + {Domain(run, url.host)}
    requires forall t :: t in o.tasks && n.tasks[t].pageReserved ==>
               (o.tasks[t].pageReserved && n.tasks[t].pageHost == o.tasks[t].pageHost)
                   || Domain(n.tasks[t].run, n.tasks[t].pageHost) in n.domains
    ensures WellShaped(n)
  {
    hide WellShaped;
    PlacesKeepShape(o, n);
  }

  lemma PagesWithSlot(o: Db, n: Db, t: TaskId, r: RunId)
    requires SamePlaces(o, n) && t in o.tasks
    requires forall u :: u in o.tasks ==> n.tasks[u].pageReserved == (o.tasks[u].pageReserved || u == t)
    ensures |PagesOf(n, r)| <= |PagesOf(o, r)| + if r == o.tasks[t].run then 1 else 0
  {
    assert PagesOf(n, r) == if r == o.tasks[t].run then PagesOf(o, r) + {t} else PagesOf(o, r);
  }

  /** One more slot where there was room for it. */
  lemma SlotCounts(o: Db, n: Db, t: TaskId)
    requires AllWithin(o) && SamePlaces(o, n) && t in o.tasks && Budgeted(o, o.tasks[t].run)
    requires |PagesOf(o, o.tasks[t].run)| < BudgetOf(o, o.tasks[t].run).maxPages
    requires |DomainsOf(n, o.tasks[t].run)| <= BudgetOf(o, o.tasks[t].run).maxDomains
    requires forall other :: other != o.tasks[t].run ==> DomainsOf(n, other) == DomainsOf(o, other)
    requires forall u :: u in o.tasks ==> n.tasks[u].pageReserved == (o.tasks[u].pageReserved || u == t)
    ensures AllWithin(n)
  {
    forall r | r in n.runs ensures Budgeted(n, r) && WithinCounts(n, r) {
      assert WithinCounts(o, r);
      SameCounts(o, n, r);
      PagesWithSlot(o, n, t, r);
      hide TasksOf, PagesOf, DomainsOf, DetailsOf;
    }
  }

  lemma LimitsDoNotCount(o: Db, n: Db)
    requires BudgetInv(o) && n == o.(limits := n.limits)
    ensures BudgetInv(n)
  {
    hide WellShaped, AllWithin;
    PlacesKeepShape(o, n);
    CountsKept(o, n);
  }

  /** A checked address adds at most its own, admitted host. */
  lemma CheckPageFits(db: Db, c: Claim, url: PageUrl)
    requires AllWithin(db)
    ensures var n := TaskModel.CheckPageUrl(db, c, url).db;
            n == db.(limits := n.limits)
            || (&& MayWrite(db, c) && Budgeted(db, db.tasks[c.task].run)
                && var run, b := db.tasks[c.task].run, BudgetOf(db, db.tasks[c.task].run);
                && Admits(b, url) && n == db.(domains := n.domains, limits := n.limits)
                && db.domains <= n.domains <= db.domains + {Domain(run, url.host)}
                && |DomainsOf(n, run)| <= b.maxDomains && forall other ::
                     other != run ==> DomainsOf(n, other) == DomainsOf(db, other))
  {
    if MayWrite(db, c) && url.PageUrl? {
      var run := db.tasks[c.task].run;
      assert Budgeted(db, run) && WithinCounts(db, run);
      ReserveDomainFits(db, run, BudgetOf(db, run), url.host);
      var reserved, n := ReserveDomain(db, run, BudgetOf(db, run), url.host), TaskModel.CheckPageUrl(db, c, url).db;
      assert n.domains == reserved.db.domains ==> forall r :: DomainsOf(n, r) == DomainsOf(reserved.db, r);
    }
  }

  lemma CheckPageKeeps(db: Db, c: Claim, url: PageUrl)
    requires BudgetInv(db)
    ensures BudgetInv(TaskModel.CheckPageUrl(db, c, url).db)
  {
    hide TaskModel.CheckPageUrl, Admits, WellShaped, AllWithin;
    var n := TaskModel.CheckPageUrl(db, c, url).db;
    CheckPageFits(db, c, url);
    if n == db.(limits := n.limits) {
      LimitsDoNotCount(db, n);
    } else {
      VisitKeepsShape(db, n, db.tasks[c.task].run, url);
      VisitKeepsCounts(db, n, db.tasks[c.task].run);
    }
  }

  lemma VisitKeepsCounts(db: Db, n: Db, run: RunId)
    requires AllWithin(db) && n == db.(domains := n.domains, limits := n.limits) && Budgeted(db, run)
    requires |DomainsOf(n, run)| <= BudgetOf(db, run).maxDomains
    requires forall other :: other != run ==> DomainsOf(n, other) == DomainsOf(db, other)
    ensures AllWithin(n)
  {
    forall r | r in n.runs ensures Budgeted(n, r) && WithinCounts(n, r) {
      assert WithinCounts(db, r);
      SameCounts(db, n, r);
      assert PagesOf(n, r) == PagesOf(db, r);
    }
  }

  // ----- New tasks ----------------------------------------------------------------------------------

  /** A created child passed every check of the budget and is new work. */
  lemma ChildIsAdmitted(db: Db, c: Claim, step: string, input: TaskInput)
    ensures var r := TaskModel.CreateChild(db, c, step, input);
            r.reply.TaskCreated? ==>
              && c.task in db.tasks && db.tasks[c.task].run in db.runs
              && FindWork(db, db.tasks[c.task].run, step, input, 0).None?
              && ChildBudgetReason(db, db.tasks[c.task].run, c.task, step, input).None?
              && r.db.tasks[db.nextTask].depth == if db.runs[db.tasks[c.task].run].budget.Some?
                 then db.tasks[c.task].depth + 1 else 0
  {
  }

  lemma InsertedCounts(db: Db, n: Db, row: Task, run: RunId)
    requires db.nextTask !in db.tasks && n.tasks == db.tasks[db.nextTask := row] && !row.pageReserved
    requires n.domains == db.domains
    ensures TasksOf(n, run) == if row.run == run then TasksOf(db, run) + {db.nextTask} else TasksOf(db, run)
    ensures PagesOf(n, run) == PagesOf(db, run) && DomainsOf(n, run) == DomainsOf(db, run)
    ensures forall p: TaskId :: DetailsOf(n, run, p) ==
              if row.run == run && row.parent == Some(p) && row.step == "detail"
                  then DetailsOf(db, run, p) + {db.nextTask} else DetailsOf(db, run, p)
  {
  }

  /** Inserting a child that passed the checks. */
  lemma ChildKeeps(db: Db, n: Db, row: Task, p: TaskId)
    requires BudgetInv(db) && Referenced(db) && p in db.tasks && row.run == db.tasks[p].run && row.parent == Some(p)
    requires row.kind == Workflow
    requires FreshTask(row) && row.depth == db.tasks[p].depth + 1
    requires ChildBudgetReason(db, row.run, p, row.step, row.input).None?
    requires FindWork(db, row.run, row.step, row.input, 0).None?
    requires n.tasks == db.tasks[db.nextTask := row] && n.domains == db.domains
    requires n.runs.Keys == db.runs.Keys && forall r :: r in db.runs ==> n.runs[r].budget == db.runs[r].budget
    ensures BudgetInv(n)
  {
    hide Distinct, AllPlaced, HostsListed, AllWithin;
    ChildIsDistinct(db, n, row);
    ChildIsPlaced(db, n, row);
    ChildCounts(db, n, row);
    HostsStayListed(db, n);
  }

  /** The same hosts under the same budgets. */
  lemma HostsStayListed(o: Db, n: Db)
    requires HostsListed(o) && n.domains == o.domains
    requires o.runs.Keys <= n.runs.Keys && forall r :: r in o.runs ==> n.runs[r].budget == o.runs[r].budget
    ensures HostsListed(n)
  {
  }

  /** A new row in its place; the others stay in theirs. */
  lemma ChildIsPlaced(db: Db, n: Db, row: Task)
    requires AllPlaced(db) && AllBudgeted(db) && row.run in db.runs && row.kind == Workflow && !row.pageReserved
    requires db.nextTask !in db.tasks
    requires row.parent.None? ==> row.depth == 0
    requires row.parent.Some? ==> row.parent.value in db.tasks && row.depth == db.tasks[row.parent.value].depth + 1
    requires row.parent.Some? ==>
               row.depth <= BudgetOf(db, row.run).maxDepth && Admits(BudgetOf(db, row.run), row.input.url)
    requires n.tasks == db.tasks[db.nextTask := row] && n.domains == db.domains
    requires n.runs.Keys == db.runs.Keys && forall r :: r in db.runs ==> n.runs[r].budget == db.runs[r].budget
    ensures AllPlaced(n) && AllBudgeted(n)
  {
    assert Budgeted(db, row.run);
    assert forall r :: r in db.runs ==> Budgeted(db, r) && Budgeted(n, r) && BudgetOf(n, r) == BudgetOf(db, r);
    forall t | t in n.tasks ensures Placed(n, t) {
      assert t in db.tasks ==> Placed(db, t);
    }
  }

  lemma ChildCounts(db: Db, n: Db, row: Task)
    requires AllWithin(db) && row.run in db.runs && row.parent.Some? && !row.pageReserved && db.nextTask !in db.tasks
    requires |TasksOf(db, row.run)| < db.runs[row.run].budget.value.maxTasks
    requires row.step == "detail" ==>
               |DetailsOf(db, row.run, row.parent.value)| < db.runs[row.run].budget.value.maxDiscoveredPerPage
    requires n.tasks == db.tasks[db.nextTask := row] && n.domains == db.domains
    requires n.runs.Keys == db.runs.Keys && forall r :: r in db.runs ==> n.runs[r].budget == db.runs[r].budget
    ensures AllWithin(n)
  {
    forall r | r in n.runs ensures Budgeted(n, r) && WithinCounts(n, r) {
      assert WithinCounts(db, r);
      InsertedCounts(db, n, row, r);
    }
  }

  lemma ChildIsDistinct(db: Db, n: Db, row: Task)
    requires Distinct(db) && AllPlaced(db) && Referenced(db) && row.input.url != EMPTY_URL
    requires FindWork(db, row.run, row.step, row.input, 0).None?
    requires n.tasks == db.tasks[db.nextTask := row]
    ensures Distinct(n)
  {
    forall t | t in db.tasks && db.tasks[t].run == row.run && db.tasks[t].step == row.step
      ensures db.tasks[t].input.url != row.input.url
    {
      assert Placed(db, t);
      assert !SameWork(db.tasks[t], row.run, row.step, row.input);
    }
  }

  lemma RunHasBudget(db: Db, run: RunId)
    requires BudgetInv(db) && run in db.runs
    ensures Budgeted(db, run)
  {
  }

  lemma CreateChildKeepsBudget(db: Db, c: Claim, step: string, input: TaskInput)
    requires BudgetInv(db) && Referenced(db)
    ensures BudgetInv(TaskModel.CreateChild(db, c, step, input).db)
  {
    hide BudgetInv;
    var r := TaskModel.CreateChild(db, c, step, input);
    CreateChildShape(db, c, step, input);
    if r.reply.TaskCreated? {
      ChildIsAdmitted(db, c, step, input);
      RunHasBudget(db, db.tasks[c.task].run);
      ChildKeeps(db, r.db, r.db.tasks[db.nextTask], c.task);
    } else {
      LimitsDoNotCount(db, r.db);
    }
  }

  /** Inserting the root of a new run. */
  lemma RootKeeps(db: Db, n: Db, row: Task)
    requires BudgetInv(db) && Referenced(db) && row.run == db.nextRun && row.parent.None? && row.depth == 0
    requires row.kind == Workflow
    requires FreshTask(row) && n.tasks == db.tasks[db.nextTask := row] && n.domains == db.domains
    requires n.runs.Keys == db.runs.Keys + {db.nextRun} && Budgeted(n, db.nextRun)
    requires forall r :: r in db.runs ==> n.runs[r] == db.runs[r]
    ensures BudgetInv(n)
  {
    hide Distinct, AllPlaced, HostsListed, AllWithin;
    var withRun := db.(runs := n.runs);
    RunAlone(db, withRun);
    ChildIsPlaced(withRun, n, row);
    RootIsDistinct(db, n, row);
    RootCounts(db, n, row);
    HostsStayListed(db, n);
  }

  /** A run without tasks changes nothing for the others. */
  lemma RunAlone(db: Db, n: Db)
    requires AllPlaced(db) && AllBudgeted(db) && db.nextRun !in db.runs && Budgeted(n, db.nextRun)
    requires n == db.(runs := n.runs) && n.runs.Keys == db.runs.Keys + {db.nextRun} && forall r ::
               r in db.runs ==> n.runs[r] == db.runs[r]
    ensures AllPlaced(n) && AllBudgeted(n)
  {
    forall t | t in n.tasks ensures Placed(n, t) {
      assert Placed(db, t);
    }
  }

  lemma RootIsDistinct(db: Db, n: Db, row: Task)
    requires Distinct(db) && Referenced(db) && row.run !in db.runs && n.tasks == db.tasks[db.nextTask := row]
    ensures Distinct(n)
  {
  }

  lemma RootCounts(db: Db, n: Db, row: Task)
    requires AllWithin(db) && HostsListed(db) && Referenced(db) && row.run == db.nextRun && row.parent.None?
    requires !row.pageReserved
    requires n.tasks == db.tasks[db.nextTask := row] && n.domains == db.domains
    requires n.runs.Keys == db.runs.Keys + {db.nextRun} && Budgeted(n, db.nextRun) && forall r ::
               r in db.runs ==> n.runs[r] == db.runs[r]
    ensures AllWithin(n)
  {
    forall r | r in n.runs ensures Budgeted(n, r) && WithinCounts(n, r) {
      InsertedCounts(db, n, row, r);
      if r in db.runs {
        assert WithinCounts(db, r);
      } else {
        NothingOfANewRun(db, r);
      }
    }
  }

  lemma NothingOfANewRun(db: Db, run: RunId)
    requires Referenced(db) && HostsListed(db) && run !in db.runs
    ensures TasksOf(db, run) == {} && PagesOf(db, run) == {} && DomainsOf(db, run) == {}
    ensures forall p: TaskId :: DetailsOf(db, run, p) == {}
  {
  }

  lemma StartKeepsBudget(db: Db, budget: Budget, input: TaskInput)
    requires BudgetInv(db) && Referenced(db) && InRange(budget)
    ensures BudgetInv(TaskModel.StartRun(db, Some(budget), input).db)
  {
    var n := TaskModel.StartRun(db, Some(budget), input).db;
    RootKeeps(db, n, n.tasks[db.nextTask]);
  }

  lemma RerunKeepsBudget(db: Db, run: RunId)
    requires BudgetInv(db) && Referenced(db)
    ensures BudgetInv(TaskModel.RerunRun(db, run).db)
  {
    hide TaskModel.RerunRun, FindRoot, WellShaped, AllWithin;
    RerunShape(db, run);
    var r := TaskModel.RerunRun(db, run);
    if r.reply.Some? {
      RootIsPlaced(db, run, FindRoot(db, run, 0).value);
      RootKeeps(db, r.db, r.db.tasks[db.nextTask]);
    }
  }

  lemma RootIsPlaced(db: Db, run: RunId, root: TaskId)
    requires WellShaped(db) && run in db.runs && root in db.tasks
    ensures Budgeted(db, run) && db.tasks[root].kind == Workflow
  {
    assert Placed(db, root);
  }

  /** A rerun adds a run with the budget of the old one and a root task of the kind of the old root. */
  lemma RerunShape(db: Db, run: RunId)
    ensures var r, root := TaskModel.RerunRun(db, run), FindRoot(db, run, 0);
            if r.reply.None? then r.db == db
            else
              && run in db.runs && root.Some? && root.value in db.tasks && db.nextTask in r.db.tasks
              && r.db.runs == db.runs[db.nextRun := Run(RunQueued, db.runs[run].budget, db.now)]
              && r.db.domains == db.domains
              && var row := r.db.tasks[db.nextTask];
              && r.db.tasks == db.tasks[db.nextTask := row] && FreshTask(row) && row.run == db.nextRun
              && row.parent.None? && row.depth == 0 && row.kind == db.tasks[root.value].kind
  {
  }

  // ----- Every step ------------------------------------------------------------------------------------

  lemma NoNewRun(s: Sys, a: Action)
    requires !(a.StartRun? || a.RerunRun? || a.CreateChild? || a.ReservePage? || a.CheckPageUrl?)
    ensures Next(s, a).db.runs.Keys == s.db.runs.Keys
  {
  }

  lemma StepKeepsBudget(s: Sys, a: Action)
    requires Inv(s) && BudgetInv(s.db)
    ensures BudgetInv(Next(s, a).db)
  {
    hide BudgetInv, Inv, DbMove;
    match a
    case StartRun(budget, input) => InvRefers(s); if InRange(budget) { StartKeepsBudget(s.db, budget, input); }
    case RerunRun(run) => InvRefers(s); RerunKeepsBudget(s.db, run);
    case CreateChild(c, step, input) => InvRefers(s); CreateChildKeepsBudget(s.db, c, step, input);
    case ReservePage(c, url) => ReservePageKeeps(s.db, c, url);
    case CheckPageUrl(c, url) => CheckPageKeeps(s.db, c, url);
    case _ => OtherStepKeepsBudget(s, a);
  }

  lemma InvRefers(s: Sys)
    requires Inv(s)
    ensures Referenced(s.db)
  {
  }

  lemma OtherStepKeepsBudget(s: Sys, a: Action)
    requires Inv(s) && BudgetInv(s.db)
    requires !(a.StartRun? || a.RerunRun? || a.CreateChild? || a.ReservePage? || a.CheckPageUrl?)
    ensures BudgetInv(Next(s, a).db)
  {
    hide Next, BudgetInv, Inv, DbMove;
    StepKeepsInv(s, a);
    NoNewRun(s, a);
    FrameKeeps(s.db, Next(s, a).db, FootprintOf(s, a));
  }

  lemma {:induction false} BudgetHolds(acts: seq<Action>)
    ensures BudgetInv(Exec(Init(), acts).db)
    decreases |acts|
  {
    hide Next, BudgetInv, Inv;
    if acts == [] {
      NoRowsNoCosts();
    } else {
      var front := acts[..|acts| - 1];
      BudgetHolds(front);
      InvInitially();
      InvAlways(Init(), front);
      StepKeepsBudget(Exec(Init(), front), acts[|acts| - 1]);
    }
  }

  lemma NoRowsNoCosts()
    ensures BudgetInv(Init().db)
  {
  }

  /**
   At every moment of every run of the system a run keeps to the budget it was started with: tasks, pages
   with one slot each, visited hosts and details per page.
   */
  lemma RunsStayWithinBudget(acts: seq<Action>, run: RunId)
    ensures var db := Exec(Init(), acts).db;
            run in db.runs ==>
              && db.runs[run].budget.Some?
              && var b := db.runs[run].budget.value;
              && |TasksOf(db, run)| <= b.maxTasks <= 10000
              && |PagesOf(db, run)| <= b.maxPages
              && |DomainsOf(db, run)| <= b.maxDomains
              && (forall d :: d in DomainsOf(db, run) ==> Listed(b, d.host))
              && (forall p: TaskId :: |DetailsOf(db, run, p)| <= b.maxDiscoveredPerPage)
  {
    BudgetHolds(acts);
    var db := Exec(Init(), acts).db;
    if run in db.runs {
      assert Budgeted(db, run) && WithinCounts(db, run);
    }
  }

  /**
   Every child stands one below its parent, within the depth limit, at an admitted address no other task of its
   step has.
   */
  lemma ChildrenKeepTheirPlace(acts: seq<Action>, t: TaskId)
    ensures var db := Exec(Init(), acts).db;
            t in db.tasks && db.tasks[t].parent.Some? ==>
              && db.tasks[t].run in db.runs && db.runs[db.tasks[t].run].budget.Some?
              && var row, b := db.tasks[t], db.runs[db.tasks[t].run].budget.value;
              && row.parent.value in db.tasks && db.tasks[row.parent.value].run == row.run
              && row.depth == db.tasks[row.parent.value].depth + 1 && row.depth <= b.maxDepth
              && Admits(b, row.input.url)
              && forall u ::
                   u in db.tasks && u != t && db.tasks[u].run == row.run && db.tasks[u].step == row.step ==>
                     db.tasks[u].input.url != row.input.url
  {
    BudgetHolds(acts);
    InvInitially();
    InvAlways(Init(), acts);
    var db := Exec(Init(), acts).db;
    if t in db.tasks {
      assert Placed(db, t);
    }
  }

  // ----- Slots and deadlines ------------------------------------------------------------------------------

  /** A page slot belongs to its task for good, whichever attempt reserved it; a later attempt takes no second one. */
  lemma {:induction false} SlotStaysTaken(s: Sys, acts: seq<Action>, t: TaskId)
    requires Inv(s) && t in s.db.tasks && s.db.tasks[t].pageReserved
    ensures var n := Exec(s, acts).db;
            t in n.tasks && n.tasks[t].pageReserved && n.tasks[t].pageHost == s.db.tasks[t].pageHost
    decreases |acts|
  {
    hide Next, Inv, DbMove;
    if acts != [] {
      var front := acts[..|acts| - 1];
      SlotStaysTaken(s, front, t);
      InvAlways(s, front);
      StepKeepsInv(Exec(s, front), acts[|acts| - 1]);
      RowMoved(Exec(s, front).db, Exec(s, acts).db, FootprintOf(Exec(s, front), acts[|acts| - 1]), t);
    }
  }

  ghost predicate PastDeadline(db: Db, run: RunId) {
    run in db.runs && db.runs[run].budget.Some? && db.now > Deadline(db.runs[run], db.runs[run].budget.value)
  }

  lemma LateStep(s: Sys, a: Action, run: RunId)
    requires Inv(s) && PastDeadline(s.db, run)
    ensures PastDeadline(Next(s, a).db, run)
    ensures TasksOf(Next(s, a).db, run) == TasksOf(s.db, run) && PagesOf(Next(s, a).db, run) == PagesOf(s.db, run)
  {
    hide Next, Inv;
    StepKeepsInv(s, a);
    var n, f := Next(s, a).db, FootprintOf(s, a);
    forall t | t in s.db.tasks && s.db.tasks[t].run == run
      ensures t in n.tasks && n.tasks[t].run == run && n.tasks[t].pageReserved == s.db.tasks[t].pageReserved
    {
      RowMoved(s.db, n, f, t);
      if f.paged == Some(t) {
        LatePage(s, a, t);
      }
    }
    forall t | t in n.tasks && n.tasks[t].run == run ensures t in s.db.tasks && s.db.tasks[t].run == run {
      if t in s.db.tasks {
        PlaceKept(s.db, n, f, t);
      } else {
        LateTask(s, a, t);
      }
    }
  }

  lemma LatePage(s: Sys, a: Action, t: TaskId)
    requires FootprintOf(s, a).paged == Some(t) && t in s.db.tasks && PastDeadline(s.db, s.db.tasks[t].run)
    ensures t in Next(s, a).db.tasks && Next(s, a).db.tasks[t].pageReserved == s.db.tasks[t].pageReserved
  {
  }

  lemma RootIsNew(s: Sys, a: Action, t: TaskId)
    requires (a.StartRun? || a.RerunRun?) && t in Next(s, a).db.tasks && t !in s.db.tasks && s.db.nextRun !in s.db.runs
    ensures Next(s, a).db.tasks[t].run !in s.db.runs
  {
  }

  lemma LateTask(s: Sys, a: Action, t: TaskId)
    requires Inv(s) && FootprintOf(s, a).inserts && t in Next(s, a).db.tasks && t !in s.db.tasks
    ensures !PastDeadline(s.db, Next(s, a).db.tasks[t].run)
  {
    hide Inv, TaskModel.CreateChild;
    InvImpliesOrder(s);
    if a.CreateChild? {
      ChildIsAdmitted(s.db, a.claim, a.step, a.input);
      CreateChildShape(s.db, a.claim, a.step, a.input);
    } else {
      RootIsNew(s, a, t);
    }
  }

  /** Once its time is up a run gets no further task and no further page, in any later state. */
  lemma {:induction false} LateRunGrowsNoMore(s: Sys, acts: seq<Action>, run: RunId)
    requires Inv(s) && PastDeadline(s.db, run)
    ensures PastDeadline(Exec(s, acts).db, run)
    ensures TasksOf(Exec(s, acts).db, run) == TasksOf(s.db, run) && PagesOf(Exec(s, acts).db, run) == PagesOf(s.db, run)
    decreases |acts|
  {
    hide Next, Inv, PastDeadline;
    if acts != [] {
      var front := acts[..|acts| - 1];
      LateRunGrowsNoMore(s, front, run);
      InvAlways(s, front);
      LateStep(Exec(s, front), acts[|acts| - 1], run);
    }
  }
}
