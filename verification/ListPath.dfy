/**
 The graph of a run that follows a listing: every task hangs where the documents of its run say.  While new
 tasks are requested the way a list page requests them, the list pages form one path from the entry page:
 numbered without gaps, never beyond the page limit, at pairwise different addresses, each knowing how many
 pages before it brought nothing new.
 */
module ListPath {
  import opened Common
  import opened CrawlPolicy
  import opened TaskModel
  import opened TaskSystem
  import opened Protocol
  import opened BudgetSafety
  import opened ListingReplay

  /** What documents say, by their ids: the links of a list page and its own address; and the definition's rules. */
  datatype Site = Site(details: nat -> seq<PageUrl>, next: nat -> PageUrl, final: nat -> PageUrl, rules: ListingRules)

  /** The details of a document that are followed. */
  function Followed(site: Site, document: nat): seq<PageUrl> {
    if |site.details(document)| > MOST_DETAILS then site.details(document)[..MOST_DETAILS] else site.details(document)
  }

  predicate IsListing(row: Task) {
    row.step == "trigger" || row.step == "list"
  }

  function Index(row: Task): int {
    if row.step == "list" then row.input.pageIndex else 1
  }

  /** The streak a page hands on: zero if it has a detail of its own, one more than its own otherwise. */
  function StreakAfter(db: Db, p: TaskId): int
    requires p in db.tasks
  {
    if DetailsOf(db, db.tasks[p].run, p) != {} then 0
    else if db.tasks[p].step == "list" then db.tasks[p].input.emptyStreak + 1
    else 1
  }

  /** The page can get no task for this detail any more: there is one, or the budget refuses it. */
  ghost predicate Exhausted(db: Db, p: TaskId, url: PageUrl)
    requires p in db.tasks && db.tasks[p].run in db.runs
  {
    || (exists x ::
          x in db.tasks && db.tasks[x].run == db.tasks[p].run && db.tasks[x].step == "detail"
          && db.tasks[x].input.url == url)
    || ChildBudgetReason(db, db.tasks[p].run, p, "detail", DetailInput(url)).Some?
  }

  ghost predicate AllExhausted(db: Db, site: Site, p: TaskId) {
    && p in db.tasks && db.tasks[p].run in db.runs && db.tasks[p].document.Some?
    && forall url :: url in Followed(site, db.tasks[p].document.value) ==> Exhausted(db, p, url)
  }

  /**
   How children come about in the run: only list pages get them, details come from the page's document, and the
   next page comes last, with the next number and the streak that follows from the details found.
   */
  ghost predicate Disciplined(s: Sys, a: Action, run: RunId, site: Site) {
    CreatesIn(s, a, run) ==>
      var p := a.claim.task; var row := s.db.tasks[p];
      && IsListing(row) && a.input.url != EMPTY_URL && row.document.Some?
      && (|| (a.step == "detail" && a.input.url in Followed(site, row.document.value))
          || (a.step == "list" && AllExhausted(s.db, site, p)
              && site.next(row.document.value) != site.rules.entry
              && site.next(row.document.value) != site.final(row.document.value)
              && Index(row) < site.rules.maxPages && StreakAfter(s.db, p) < site.rules.maxEmptyPages
              && a.input == TaskInput(site.next(row.document.value), Index(row) + 1, StreakAfter(s.db, p), "")))
  }

  /** The action adds a child to the run. */
  predicate CreatesIn(s: Sys, a: Action, run: RunId) {
    && a.CreateChild? && a.claim.task in s.db.tasks && s.db.tasks[a.claim.task].run == run
    && TaskModel.CreateChild(s.db, a.claim, a.step, a.input).reply.TaskCreated?
  }

  /** The action replaces the document of a list page of the run. */
  predicate ReplacesDocument(s: Sys, a: Action, run: RunId) {
    && a.SaveDocument? && MayWrite(s.db, a.claim) && s.db.tasks[a.claim.task].run == run
    && IsListing(s.db.tasks[a.claim.task]) && s.db.tasks[a.claim.task].document.Some?
  }

  ghost predicate Respects(s: Sys, a: Action, run: RunId, site: Site) {
    Disciplined(s, a, run, site) && !ReplacesDocument(s, a, run)
  }

  ghost predicate NextPage(db: Db, site: Site, p: TaskId, row: Task)
    requires p in db.tasks
  {
    && AllExhausted(db, site, p)
    && row.input.url == site.next(db.tasks[p].document.value)
    && row.input.url != site.rules.entry && row.input.url != site.final(db.tasks[p].document.value)
    && row.input.pageIndex == Index(db.tasks[p]) + 1 && row.input.pageIndex <= site.rules.maxPages
    && row.input.emptyStreak == StreakAfter(db, p) && row.input.emptyStreak < site.rules.maxEmptyPages
  }

  ghost predicate InGraph(db: Db, site: Site, t: TaskId)
    requires t in db.tasks
  {
    var row := db.tasks[t];
    && (row.parent.None? <==> row.step == "trigger")
    && (row.parent.Some? ==>
          && row.parent.value < t && row.parent.value in db.tasks && db.tasks[row.parent.value].run == row.run
          && IsListing(db.tasks[row.parent.value])
          && ((row.step == "detail" && db.tasks[row.parent.value].document.Some?
               && row.input.url in Followed(site, db.tasks[row.parent.value].document.value))
              || (row.step == "list" && NextPage(db, site, row.parent.value, row))))
  }

  ghost predicate Graph(db: Db, run: RunId, site: Site) {
    && (forall t :: t in db.tasks && db.tasks[t].run == run ==> InGraph(db, site, t))
    && RootsAreTriggers(db)
    && (forall t, u ::
          t in db.tasks && u in db.tasks && db.tasks[t].run == db.tasks[u].run
          && db.tasks[t].parent.None? && db.tasks[u].parent.None? ==>
            t == u)
  }

  // ----- What a step keeps -------------------------------------------------------------------------------

  /** All the graph looks at, for rows that exist; the documents of list pages of the run are never replaced. */
  ghost predicate PlacesKept(o: Db, n: Db, run: RunId) {
    && o.now <= n.now
    && (forall r ::
          r in o.runs ==>
            r in n.runs && n.runs[r].budget == o.runs[r].budget && n.runs[r].createdAt == o.runs[r].createdAt)
    && (forall t :: t in o.tasks ==>
          && t in n.tasks
          && n.tasks[t].run == o.tasks[t].run && n.tasks[t].parent == o.tasks[t].parent
          && n.tasks[t].step == o.tasks[t].step
          && n.tasks[t].input == o.tasks[t].input && n.tasks[t].depth == o.tasks[t].depth)
    && (forall t :: t in o.tasks && o.tasks[t].run == run && IsListing(o.tasks[t]) && o.tasks[t].document.Some? ==>
          n.tasks[t].document == o.tasks[t].document)
  }

  /** Only saving a document changes one. */
  lemma DocumentKept(s: Sys, a: Action, t: TaskId)
    requires Inv(s) && t in s.db.tasks && !(a.SaveDocument? && MayWrite(s.db, a.claim) && a.claim.task == t)
    ensures t in Next(s, a).db.tasks && Next(s, a).db.tasks[t].document == s.db.tasks[t].document
  {
    hide Next, Inv;
    if a.ReadForComplete? || a.ReadTaskForFail? || a.ReadAttemptForFail? || a.ReadForRetry? || a.Crash? {
      ReadingChangesNothing(s, a);
    } else if a.CancelTask? || a.CancelRun? || a.ExpireRun? {
      ClosingKeepsDocument(s, a, t);
    } else if a.CommitComplete? || a.CommitFail? || a.RecoverTask? || a.CommitRetry? {
      EndingKeepsDocument(s, a, t);
    } else if a.ReservePage? || a.CheckPageUrl? || a.SaveDocument? || a.SaveRecords? || a.CreateChild? {
      WorkingKeepsDocument(s, a, t);
    } else {
      OthersKeepDocument(s, a, t);
    }
  }

  lemma ClosingKeepsDocument(s: Sys, a: Action, t: TaskId)
    requires t in s.db.tasks && (a.CancelTask? || a.CancelRun? || a.ExpireRun?)
    ensures t in Next(s, a).db.tasks && Next(s, a).db.tasks[t].document == s.db.tasks[t].document
  {
    hide Subtree, CloseAttempts, ExpireEvents;
  }

  lemma EndingKeepsDocument(s: Sys, a: Action, t: TaskId)
    requires t in s.db.tasks && (a.CommitComplete? || a.CommitFail? || a.RecoverTask? || a.CommitRetry?)
    ensures t in Next(s, a).db.tasks && Next(s, a).db.tasks[t].document == s.db.tasks[t].document
  {
    hide CloseAttempts;
  }

  lemma WorkingKeepsDocument(s: Sys, a: Action, t: TaskId)
    requires Inv(s) && t in s.db.tasks && !(a.SaveDocument? && MayWrite(s.db, a.claim) && a.claim.task == t)
    requires a.ReservePage? || a.CheckPageUrl? || a.SaveDocument? || a.SaveRecords? || a.CreateChild?
    ensures t in Next(s, a).db.tasks && Next(s, a).db.tasks[t].document == s.db.tasks[t].document
  {
    hide Inv, TaskModel.CreateChild;
    InvImpliesOrder(s);
    match a
    case CreateChild(c, step, input) => CreateChildShape(s.db, c, step, input);
    case ReservePage(c, url) => PageKeepsDocument(s.db, c, url, t); hide TaskModel.ReservePage;
    case CheckPageUrl(c, url) => RedirectKeepsDocument(s.db, c, url, t); hide TaskModel.CheckPageUrl;
    case _ =>
  }

  lemma PageKeepsDocument(db: Db, c: Claim, url: PageUrl, t: TaskId)
    requires t in db.tasks
    ensures var n := TaskModel.ReservePage(db, c, url).db; t in n.tasks && n.tasks[t].document == db.tasks[t].document
  {
    hide TaskModel.ReservePage, Admits, PagesOf, DomainsOf, MayWrite;
    ReservationShape(db, c, url);
  }

  lemma RedirectKeepsDocument(db: Db, c: Claim, url: PageUrl, t: TaskId)
    requires t in db.tasks
    ensures var n := TaskModel.CheckPageUrl(db, c, url).db; t in n.tasks && n.tasks[t].document == db.tasks[t].document
  {
  }

  lemma OthersKeepDocument(s: Sys, a: Action, t: TaskId)
    requires Inv(s) && t in s.db.tasks
    requires a.Tick? || a.StartRun? || a.RerunRun? || a.ClaimTask? || a.RenewLease? || a.RecordLimit? || a.Finish?
    ensures t in Next(s, a).db.tasks && Next(s, a).db.tasks[t].document == s.db.tasks[t].document
  {
    hide Inv, FinalStatus, CloseAttempts;
    InvImpliesOrder(s);
  }

  lemma StepKeepsPlaces(s: Sys, a: Action, run: RunId)
    requires Inv(s) && !ReplacesDocument(s, a, run)
    ensures PlacesKept(s.db, Next(s, a).db, run)
  {
    hide Next, Inv, DbMove;
    StepKeepsInv(s, a);
    var o, n, f := s.db, Next(s, a).db, FootprintOf(s, a);
    TimesKept(o, n, f);
    forall t | t in o.tasks
      ensures t in n.tasks
      ensures n.tasks[t].run == o.tasks[t].run && n.tasks[t].parent == o.tasks[t].parent
      ensures n.tasks[t].step == o.tasks[t].step
      ensures n.tasks[t].input == o.tasks[t].input && n.tasks[t].depth == o.tasks[t].depth
      ensures o.tasks[t].run == run && IsListing(o.tasks[t]) && o.tasks[t].document.Some? ==>
                n.tasks[t].document == o.tasks[t].document
    {
      PlaceKept(o, n, f, t);
      if o.tasks[t].run == run && IsListing(o.tasks[t]) && o.tasks[t].document.Some? {
        DocumentKept(s, a, t);
      }
    }
  }

  lemma TimesKept(o: Db, n: Db, f: Footprint)
    requires DbMove(o, n, f)
    ensures o.now <= n.now
    ensures forall r ::
              r in o.runs ==>
                r in n.runs && n.runs[r].budget == o.runs[r].budget && n.runs[r].createdAt == o.runs[r].createdAt
  {
  }

  /** The budget never takes a refusal back. */
  lemma RefusalStays(o: Db, n: Db, run: RunId, p: TaskId, step: string, input: TaskInput)
    requires PlacesKept(o, n, run) && p in o.tasks && o.tasks[p].run == run && run in o.runs
    requires ChildBudgetReason(o, run, p, step, input).Some?
    ensures ChildBudgetReason(n, run, p, step, input).Some?
  {
    assert TasksOf(o, run) <= TasksOf(n, run) && DetailsOf(o, run, p) <= DetailsOf(n, run, p);
    SubsetCardinality(TasksOf(o, run), TasksOf(n, run));
    SubsetCardinality(DetailsOf(o, run, p), DetailsOf(n, run, p));
  }

  /** An exhausted detail stays exhausted. */
  lemma DetailStaysExhausted(o: Db, n: Db, run: RunId, p: TaskId, url: PageUrl)
    requires PlacesKept(o, n, run) && p in o.tasks && o.tasks[p].run == run && run in o.runs && Exhausted(o, p, url)
    ensures Exhausted(n, p, url)
  {
    if ChildBudgetReason(o, run, p, "detail", DetailInput(url)).Some? {
      RefusalStays(o, n, run, p, "detail", DetailInput(url));
    } else {
      var x :| x in o.tasks && o.tasks[x].run == o.tasks[p].run && o.tasks[x].step == "detail"
          && o.tasks[x].input.url == url;
      assert x in n.tasks && n.tasks[x].step == "detail";
    }
  }

  lemma ExhaustionStays(o: Db, n: Db, run: RunId, site: Site, p: TaskId)
    requires PlacesKept(o, n, run) && AllExhausted(o, site, p) && o.tasks[p].run == run && IsListing(o.tasks[p])
    ensures AllExhausted(n, site, p)
  {
    forall url | url in Followed(site, o.tasks[p].document.value) ensures Exhausted(n, p, url) {
      DetailStaysExhausted(o, n, run, p, url);
    }
  }

  lemma RowStaysInGraph(o: Db, n: Db, run: RunId, site: Site, t: TaskId)
    requires PlacesKept(o, n, run) && t in o.tasks && o.tasks[t].run == run && InGraph(o, site, t)
    requires o.tasks[t].parent.Some? && o.tasks[t].parent.value in o.tasks && o.tasks[t].step == "list" ==>
               DetailsOf(n, o.tasks[t].run, o.tasks[t].parent.value)
                   == DetailsOf(o, o.tasks[t].run, o.tasks[t].parent.value)
    ensures InGraph(n, site, t)
  {
    if o.tasks[t].parent.Some? && o.tasks[t].step == "list" {
      ExhaustionStays(o, n, run, site, o.tasks[t].parent.value);
    }
  }

  /** A page whose details are exhausted gets no further detail. */
  lemma ExhaustedPageGetsNoDetail(s: Sys, a: Action, run: RunId, site: Site, p: TaskId)
    requires Inv(s) && BudgetInv(s.db) && Respects(s, a, run, site) && p in s.db.tasks && s.db.tasks[p].run == run
    requires AllExhausted(s.db, site, p)
    ensures DetailsOf(Next(s, a).db, run, p) == DetailsOf(s.db, run, p)
  {
    hide Next, Inv, BudgetInv, DbMove, Disciplined, Exhausted, ReplacesDocument;
    StepKeepsInv(s, a);
    var n := Next(s, a).db;
    StepKeepsPlaces(s, a, run);
    forall t | t in DetailsOf(n, run, p) ensures t in DetailsOf(s.db, run, p) {
      if t !in s.db.tasks {
        InsertsOnly(s.db, n, FootprintOf(s, a), t);
        NewDetailIsFollowed(s, a, run, site, p, t);
        NewDetailIsFresh(s, a, run, p, t);
        assert false;
      }
    }
  }

  lemma NewDetailIsFollowed(s: Sys, a: Action, run: RunId, site: Site, p: TaskId, t: TaskId)
    requires Inv(s) && Disciplined(s, a, run, site) && p in s.db.tasks && s.db.tasks[p].run == run
    requires t in DetailsOf(Next(s, a).db, run, p) && t !in s.db.tasks && FootprintOf(s, a).inserts
    ensures s.db.tasks[p].document.Some?
    ensures Next(s, a).db.tasks[t].input.url in Followed(site, s.db.tasks[p].document.value)
  {
    hide Next, Inv, AllExhausted;
    NewChildOf(s, a, t);
  }

  /** A new detail had neither a task nor a refusal before. */
  lemma NewDetailIsFresh(s: Sys, a: Action, run: RunId, p: TaskId, t: TaskId)
    requires Inv(s) && BudgetInv(s.db) && p in s.db.tasks && s.db.tasks[p].run == run && run in s.db.runs
    requires t in DetailsOf(Next(s, a).db, run, p) && t !in s.db.tasks && FootprintOf(s, a).inserts
    ensures !Exhausted(s.db, p, Next(s, a).db.tasks[t].input.url)
  {
    hide Next, BudgetInv, Inv, TaskModel.CreateChild;
    NewChildOf(s, a, t);
    var url := a.input.url;
    CreatedAddress(s.db, a.claim, a.step, a.input);
    if Exhausted(s.db, p, url) {
      var x :| x in s.db.tasks && s.db.tasks[x].run == s.db.tasks[p].run && s.db.tasks[x].step == "detail"
          && s.db.tasks[x].input.url == url;
      ExistingIsSameWork(s, x, run, a.input);
      assert false;
    }
  }

  lemma CreatedAddress(db: Db, c: Claim, step: string, input: TaskInput)
    requires BudgetInv(db) && TaskModel.CreateChild(db, c, step, input).reply.TaskCreated?
    ensures input.url != EMPTY_URL && Fenced(db, c) && c.task in db.tasks && db.tasks[c.task].run in db.runs
    ensures ChildBudgetReason(db, db.tasks[c.task].run, c.task, step, input).None?
    ensures FindWork(db, db.tasks[c.task].run, step, input, 0).None?
  {
    CreateChildShape(db, c, step, input);
    ChildIsAdmitted(db, c, step, input);
    assert Budgeted(db, db.tasks[c.task].run);
  }

  lemma ExistingIsSameWork(s: Sys, x: TaskId, run: RunId, input: TaskInput)
    requires Inv(s) && BudgetInv(s.db) && x in s.db.tasks && s.db.tasks[x].run == run
    requires s.db.tasks[x].input.url == input.url && input.url != EMPTY_URL
    ensures SameWork(s.db.tasks[x], run, s.db.tasks[x].step, input) && x < s.db.nextTask
  {
    assert Placed(s.db, x);
  }

  /** The only new rows with a parent are requested children. */
  lemma NewChildOf(s: Sys, a: Action, t: TaskId)
    requires Inv(s) && FootprintOf(s, a).inserts && t in Next(s, a).db.tasks && t !in s.db.tasks
    requires Next(s, a).db.tasks[t].parent.Some?
    ensures a.CreateChild? && t == s.db.nextTask
    ensures TaskModel.CreateChild(s.db, a.claim, a.step, a.input).reply.TaskCreated?
    ensures var row := Next(s, a).db.tasks[t];
            && a.claim.task in s.db.tasks && row.parent == Some(a.claim.task) && row.run == s.db.tasks[a.claim.task].run
            && row.step == a.step && row.input == a.input
    ensures Next(s, a).db == TaskModel.CreateChild(s.db, a.claim, a.step, a.input).db
  {
    InvImpliesOrder(s);
    hide Next, Inv, TaskModel.CreateChild;
    if a.CreateChild? {
      ChildStep(s, a.claim, a.step, a.input);
      CreateChildShape(s.db, a.claim, a.step, a.input);
    } else {
      RootHasNoParent(s, a, t);
    }
  }

  ghost predicate RootsAreTriggers(db: Db) {
    forall t :: t in db.tasks && db.tasks[t].parent.None? ==> db.tasks[t].step == "trigger"
  }

  lemma RerunRoot(db: Db, run: RunId, t: TaskId)
    requires RootsAreTriggers(db)
    requires t in TaskModel.RerunRun(db, run).db.tasks && t !in db.tasks
    ensures var row := TaskModel.RerunRun(db, run).db.tasks[t];
            row.step == "trigger" && row.run == db.nextRun && t == db.nextTask
  {
  }

  /** A new row without a parent is the root of a new run. */
  lemma NewRootOf(s: Sys, a: Action, t: TaskId)
    requires IdsFresh(s.db) && RootsAreTriggers(s.db) && FootprintOf(s, a).inserts
    requires t in Next(s, a).db.tasks && t !in s.db.tasks && Next(s, a).db.tasks[t].parent.None?
    ensures Next(s, a).db.tasks[t].step == "trigger" && Next(s, a).db.tasks[t].run == s.db.nextRun && t == s.db.nextTask
  {
    hide Next, TaskModel.CreateChild;
    if a.CreateChild? {
      ChildHasParent(s, a.claim, a.step, a.input, t);
    } else {
      RootHasNoParent(s, a, t);
      RootIsTrigger(s, a, t);
    }
  }

  lemma ChildHasParent(s: Sys, c: Claim, step: string, input: TaskInput, t: TaskId)
    requires t in Next(s, Action.CreateChild(c, step, input)).db.tasks && t !in s.db.tasks
    ensures Next(s, Action.CreateChild(c, step, input)).db.tasks[t].parent.Some?
  {
    hide TaskModel.CreateChild;
    CreateChildShape(s.db, c, step, input);
  }

  lemma RootIsTrigger(s: Sys, a: Action, t: TaskId)
    requires (a.StartRun? || a.RerunRun?) && t in Next(s, a).db.tasks && t !in s.db.tasks
    requires RootsAreTriggers(s.db)
    ensures Next(s, a).db.tasks[t].step == "trigger"
  {
    if a.RerunRun? {
      RerunRoot(s.db, a.run, t);
    }
  }

  lemma NewRowInGraph(s: Sys, a: Action, run: RunId, site: Site, t: TaskId)
    requires Inv(s) && BudgetInv(s.db) && Graph(s.db, run, site) && Respects(s, a, run, site)
    requires t in Next(s, a).db.tasks && t !in s.db.tasks && Next(s, a).db.tasks[t].run == run
    ensures InGraph(Next(s, a).db, site, t)
  {
    hide Next, Inv, BudgetInv, DbMove, AllExhausted;
    StepKeepsInv(s, a);
    InsertsOnly(s.db, Next(s, a).db, FootprintOf(s, a), t);
    if Next(s, a).db.tasks[t].parent.None? {
      InvImpliesOrder(s);
      NewRootOf(s, a, t);
    } else {
      NewChildInGraph(s, a, run, site, t);
    }
  }

  lemma NewChildInGraph(s: Sys, a: Action, run: RunId, site: Site, t: TaskId)
    requires Inv(s) && BudgetInv(s.db) && Graph(s.db, run, site) && Respects(s, a, run, site)
    requires FootprintOf(s, a).inserts
    requires t in Next(s, a).db.tasks && t !in s.db.tasks && Next(s, a).db.tasks[t].run == run
    requires Next(s, a).db.tasks[t].parent.Some?
    ensures InGraph(Next(s, a).db, site, t)
  {
    hide Next, Inv, BudgetInv, DbMove, AllExhausted, Graph, ReplacesDocument, TaskModel.CreateChild;
    NewChildOf(s, a, t);
    var n, p := Next(s, a).db, a.claim.task;
    RunKnown(s, p);
    StepKeepsPlaces(s, a, run);
    if a.step == "list" {
      ExhaustedPageGetsNoDetail(s, a, run, site, p);
      ExhaustionStays(s.db, n, run, site, p);
    }
  }

  lemma RunKnown(s: Sys, p: TaskId)
    requires Inv(s) && p in s.db.tasks
    ensures s.db.tasks[p].run in s.db.runs && p < s.db.nextTask
  {
  }

  lemma InsertsOnly(o: Db, n: Db, f: Footprint, t: TaskId)
    requires DbMove(o, n, f) && t in n.tasks && t !in o.tasks
    ensures f.inserts
  {
  }

  lemma OldRowInGraph(s: Sys, a: Action, run: RunId, site: Site, t: TaskId)
    requires Inv(s) && BudgetInv(s.db) && Graph(s.db, run, site) && Respects(s, a, run, site)
    requires t in s.db.tasks && s.db.tasks[t].run == run
    ensures t in Next(s, a).db.tasks && InGraph(Next(s, a).db, site, t)
  {
    hide Next, Inv, BudgetInv, DbMove, AllExhausted, Disciplined, ReplacesDocument;
    StepKeepsInv(s, a);
    StepKeepsPlaces(s, a, run);
    assert InGraph(s.db, site, t);
    if s.db.tasks[t].parent.Some? && s.db.tasks[t].step == "list" {
      ExhaustedPageGetsNoDetail(s, a, run, site, s.db.tasks[t].parent.value);
    }
    RowStaysInGraph(s.db, Next(s, a).db, run, site, t);
  }

  lemma RootsStayUnique(s: Sys, a: Action, run: RunId, site: Site)
    requires Inv(s) && Graph(s.db, run, site) && !ReplacesDocument(s, a, run)
    ensures var n := Next(s, a).db;
            && RootsAreTriggers(n)
            && (forall t, u ::
                  t in n.tasks && u in n.tasks && n.tasks[t].run == n.tasks[u].run
                  && n.tasks[t].parent.None? && n.tasks[u].parent.None? ==>
                    t == u)
  {
    hide Next, Inv, DbMove, InGraph;
    StepKeepsInv(s, a);
    var n := Next(s, a).db;
    StepKeepsPlaces(s, a, run);
    forall t | t in n.tasks && n.tasks[t].parent.None?
      ensures n.tasks[t].step == "trigger"
      ensures t !in s.db.tasks ==> n.tasks[t].run == s.db.nextRun && t == s.db.nextTask
      ensures t in s.db.tasks ==>
                n.tasks[t].run == s.db.tasks[t].run && n.tasks[t].run != s.db.nextRun && s.db.tasks[t].parent.None?
    {
      if t !in s.db.tasks {
        InsertsOnly(s.db, n, FootprintOf(s, a), t);
        InvImpliesOrder(s);
        NewRootOf(s, a, t);
      } else {
        OldRun(s, t);
      }
    }
  }

  lemma OldRun(s: Sys, t: TaskId)
    requires Inv(s) && t in s.db.tasks
    ensures s.db.tasks[t].run < s.db.nextRun
  {
  }

  lemma GraphStep(s: Sys, a: Action, run: RunId, site: Site)
    requires Inv(s) && BudgetInv(s.db) && Graph(s.db, run, site) && Respects(s, a, run, site)
    ensures Graph(Next(s, a).db, run, site)
  {
    hide Next, Inv, BudgetInv, DbMove, Disciplined, InGraph, ReplacesDocument;
    StepKeepsInv(s, a);
    RootsStayUnique(s, a, run, site);
    var n := Next(s, a).db;
    StepKeepsPlaces(s, a, run);
    forall t | t in n.tasks && n.tasks[t].run == run ensures InGraph(n, site, t) {
      if t in s.db.tasks {
        OldRowInGraph(s, a, run, site, t);
      } else {
        NewRowInGraph(s, a, run, site, t);
      }
    }
  }

  // ----- The path ----------------------------------------------------------------------------------------

  function ListPagesOf(db: Db, run: RunId): set<TaskId> {
    set t | t in db.tasks && db.tasks[t].run == run && IsListing(db.tasks[t])
  }

  /** Page numbers start at one, have no gap and stay within the limit. */
  lemma {:induction false} PageNumbers(db: Db, run: RunId, site: Site, t: TaskId)
    requires Graph(db, run, site) && t in ListPagesOf(db, run)
    ensures 1 <= Index(db.tasks[t]) && (db.tasks[t].parent.None? <==> Index(db.tasks[t]) == 1)
    ensures Index(db.tasks[t]) > 1 ==>
              && db.tasks[t].parent.Some? && db.tasks[t].parent.value in ListPagesOf(db, run)
              && Index(db.tasks[db.tasks[t].parent.value]) == Index(db.tasks[t]) - 1
              && Index(db.tasks[t]) <= site.rules.maxPages
    decreases t
  {
    assert InGraph(db, site, t);
    if db.tasks[t].parent.Some? {
      PageNumbers(db, run, site, db.tasks[t].parent.value);
    }
  }

  /** One path: two pages with the same number are the same page. */
  lemma {:induction false} PageNumbersAreUnique(db: Db, run: RunId, site: Site, t: TaskId, u: TaskId)
    requires Graph(db, run, site) && Distinct(db) && t in ListPagesOf(db, run) && u in ListPagesOf(db, run)
    requires Index(db.tasks[t]) == Index(db.tasks[u])
    ensures t == u
    decreases t
  {
    PageNumbers(db, run, site, t);
    PageNumbers(db, run, site, u);
    assert InGraph(db, site, t) && InGraph(db, site, u);
    if db.tasks[t].parent.Some? {
      PageNumbersAreUnique(db, run, site, db.tasks[t].parent.value, db.tasks[u].parent.value);
      assert db.tasks[t].input.url == db.tasks[u].input.url;
    }
  }

  lemma PathIsShort(db: Db, run: RunId, site: Site)
    requires Graph(db, run, site) && Distinct(db) && site.rules.maxPages >= 1
    ensures |ListPagesOf(db, run)| <= site.rules.maxPages
  {
    forall t | t in ListPagesOf(db, run) ensures 1 <= Index(db.tasks[t]) <= site.rules.maxPages {
      PageNumbers(db, run, site, t);
    }
    forall t, u | t in ListPagesOf(db, run) && u in ListPagesOf(db, run) && Index(db.tasks[t]) == Index(db.tasks[u])
      ensures t == u
    {
      PageNumbersAreUnique(db, run, site, t, u);
    }
    NumberedPagesAreFew(db, ListPagesOf(db, run), site.rules.maxPages);
  }

  lemma {:induction false} NumberedPagesAreFew(db: Db, pages: set<TaskId>, most: nat)
    requires forall t :: t in pages ==> t in db.tasks && 1 <= Index(db.tasks[t]) <= most
    requires forall t, u :: t in pages && u in pages && Index(db.tasks[t]) == Index(db.tasks[u]) ==> t == u
    ensures |pages| <= most
    decreases most
  {
    if most == 0 {
      assert pages == {};
    } else if t :| t in pages && Index(db.tasks[t]) == most {
      NumberedPagesAreFew(db, pages - {t}, most - 1);
    } else {
      NumberedPagesAreFew(db, pages, most - 1);
    }
  }

  /** How many pages in a row, just before this one, have no detail of their own. */
  ghost function Barren(db: Db, t: TaskId): nat
    decreases t
  {
    if t !in db.tasks || db.tasks[t].parent.None? || db.tasks[t].parent.value >= t
        || db.tasks[t].parent.value !in db.tasks
    then 0
    else
      var p := db.tasks[t].parent.value;
      if DetailsOf(db, db.tasks[p].run, p) != {} then 0 else Barren(db, p) + 1
  }

  lemma {:induction false} StreakCountsBarrenPages(db: Db, run: RunId, site: Site, t: TaskId)
    requires Graph(db, run, site) && t in ListPagesOf(db, run) && db.tasks[t].step == "list"
    ensures db.tasks[t].input.emptyStreak == Barren(db, t)
    decreases t
  {
    assert InGraph(db, site, t);
    var p := db.tasks[t].parent.value;
    assert InGraph(db, site, p);
    if db.tasks[p].step == "list" {
      StreakCountsBarrenPages(db, run, site, p);
    }
  }

  // ----- The end of the path -----------------------------------------------------------------------------

  ghost predicate HasNext(db: Db, p: TaskId) {
    exists t :: t in db.tasks && db.tasks[t].parent == Some(p) && db.tasks[t].step == "list"
  }

  /** Below a page stands a page of every smaller number together with the one after it. */
  lemma {:induction false} PageBefore(db: Db, run: RunId, site: Site, q: TaskId, k: int) returns (t: TaskId)
    requires Graph(db, run, site) && q in ListPagesOf(db, run) && 1 <= k < Index(db.tasks[q])
    ensures t in ListPagesOf(db, run) && Index(db.tasks[t]) == k + 1 && db.tasks[t].step == "list"
    ensures db.tasks[t].parent.Some? && db.tasks[t].parent.value in ListPagesOf(db, run)
    ensures Index(db.tasks[db.tasks[t].parent.value]) == k
    decreases q
  {
    PageNumbers(db, run, site, q);
    assert InGraph(db, site, q);
    if Index(db.tasks[q]) == k + 1 {
      t := q;
    } else {
      t := PageBefore(db, run, site, db.tasks[q].parent.value, k);
    }
  }

  /** Only the last page of the path has no next one. */
  lemma LastPageIsUnique(db: Db, run: RunId, site: Site, p: TaskId, q: TaskId)
    requires Graph(db, run, site) && Distinct(db) && p in ListPagesOf(db, run) && q in ListPagesOf(db, run)
    requires !HasNext(db, p) && !HasNext(db, q)
    ensures p == q
  {
    if Index(db.tasks[p]) == Index(db.tasks[q]) {
      PageNumbersAreUnique(db, run, site, p, q);
    } else if Index(db.tasks[p]) < Index(db.tasks[q]) {
      ShorterHasNext(db, run, site, p, q);
    } else {
      ShorterHasNext(db, run, site, q, p);
    }
  }

  lemma ShorterHasNext(db: Db, run: RunId, site: Site, p: TaskId, q: TaskId)
    requires Graph(db, run, site) && Distinct(db) && p in ListPagesOf(db, run) && q in ListPagesOf(db, run)
    requires Index(db.tasks[p]) < Index(db.tasks[q])
    ensures HasNext(db, p)
  {
    PageNumbers(db, run, site, p);
    var t := PageBefore(db, run, site, q, Index(db.tasks[p]));
    PageNumbersAreUnique(db, run, site, p, db.tasks[t].parent.value);
  }

  /** A page with a next one is exhausted. */
  lemma NextMeansExhausted(db: Db, run: RunId, site: Site, p: TaskId)
    requires Graph(db, run, site) && p in db.tasks && db.tasks[p].run == run && HasNext(db, p)
    requires forall t :: t in db.tasks && db.tasks[t].parent == Some(p) ==> db.tasks[t].run == run
    ensures AllExhausted(db, site, p)
  {
    var t :| t in db.tasks && db.tasks[t].parent == Some(p) && db.tasks[t].step == "list";
    assert InGraph(db, site, t);
  }
}
