/**
 Workers on the list pages of one run, step by step: each check, each look-up and each request of a worker is
 a step of its own, and between two of them anything else may happen: other workers on other pages or on the
 same page, leases running out, retries, cancellations, crashes.  However they interleave, the list pages
 form one path.
 */
module ListWorkers {
  import opened Common
  import opened CrawlPolicy
  import opened TaskModel
  import opened TaskSystem
  import opened Ownership
  import opened Protocol
  import opened Fencing
  import opened BudgetSafety
  import opened ListingReplay
  import opened Listing
  import opened ListPath

  /** Where a worker stands on its page; `count` is its own local count of new details. */
  datatype Phase =
    | Holding
    | Checking(todo: seq<PageUrl>, count: nat)
    | Looking(url: PageUrl, todo: seq<PageUrl>, count: nat)
    | Requesting(url: PageUrl, todo: seq<PageUrl>, count: nat)
    | LookingForNext(count: nat)
    | CheckingForNext(count: nat)
    | RequestingNext(count: nat)
    | Noting(count: nat)
    | Done(outcome: Outcome)

  /** A worker with its claim of a list page and the document it works from. */
  datatype Visitor = Visitor(claim: Claim, document: Option<nat>, phase: Phase)

  datatype Floor = Floor(sys: Sys, visitors: map<ProcId, Visitor>)

  datatype Step =
    | Act(action: Action)
    | Take(w: ProcId, id: TaskId, worker: string, lease: int)
    | Advance(w: ProcId, fetched: nat)
    | Die(w: ProcId)

  function VisitOf(db: Db, site: Site, v: Visitor): Visit
    requires v.claim.task in db.tasks && v.document.Some?
  {
    var row, d := db.tasks[v.claim.task], v.document.value;
    Visit(row.step == "list", row.input, site.final(d), site.details(d), site.next(d))
  }

  /** The transaction in the worker's next step; None if the step only reads. */
  function Deed(db: Db, run: RunId, site: Site, v: Visitor, fetched: nat): Option<Action>
    requires v.claim.task in db.tasks
  {
    var c := v.claim;
    if v.document.None? then Some(Action.SaveDocument(c, fetched))
    else
      var visit := VisitOf(db, site, v);
      match v.phase
      case Holding =>
        if IndexInRange(site.rules, visit) && |visit.details| > MOST_DETAILS
        then Some(Action.RecordLimit(run, c.task, "detail", visit.final, MaxDiscoveredPerPage)) else None
      case Requesting(url, _, _) => Some(Action.CreateChild(c, "detail", DetailInput(url)))
      case RequestingNext(n) => Some(Action.CreateChild(c, "list", ListInput(visit, EmptyStreak(visit, n))))
      case Noting(_) => Some(Action.RecordLimit(run, c.task, "list", visit.next, MaxPages))
      case _ => None
  }

  /** Where the step leaves the worker, by what it reads or is answered; None if it gives up. */
  function Response(db: Db, run: RunId, site: Site, v: Visitor, fetched: nat): Option<Visitor>
    requires v.claim.task in db.tasks
  {
    var c := v.claim;
    if v.document.None? then
      if MayWrite(db, c) then Some(v.(document := Some(fetched))) else None
    else
      var visit := VisitOf(db, site, v);
      match v.phase
      case Holding =>
        if IndexInRange(site.rules, visit) then Some(v.(phase := Checking(KeptDetails(visit), 0))) else None
      case Checking(todo, n) =>
        if todo == [] then Some(v.(phase := LookingForNext(n)))
        else if Fenced(db, c) then Some(v.(phase := Looking(todo[0], todo[1..], n)))
        else None
      case Looking(url, todo, n) =>
        var found := TaskByUrl(db, run, "detail", url);
        if found.None? then Some(v.(phase := Requesting(url, todo, n)))
        else Some(v.(phase := Checking(todo, n + if db.tasks[found.value].parent == Some(c.task) then 1 else 0)))
      case Requesting(url, todo, n) =>
        (match TaskModel.CreateChild(db, c, "detail", DetailInput(url)).reply
         case TaskCreated(_) => Some(v.(phase := Checking(todo, n + 1)))
         case TaskExists(_) => Some(v.(phase := Checking(todo, n + 1)))
         case BudgetExceeded(_) => Some(v.(phase := Checking(todo, n)))
         case _ => None)
      case LookingForNext(n) =>
        var stop := StopAfter(db, run, c, site.rules, visit, n);
        if stop == GoOn then Some(v.(phase := CheckingForNext(n)))
        else if stop == MaxPagesReached then Some(v.(phase := Noting(n)))
        else Some(v.(phase := Done(Outcome(n, EmptyStreak(visit, n), stop))))
      case CheckingForNext(n) => if Fenced(db, c) then Some(v.(phase := RequestingNext(n))) else None
      case RequestingNext(n) =>
        (match TaskModel.CreateChild(db, c, "list", ListInput(visit, EmptyStreak(visit, n))).reply
         case TaskCreated(_) => Some(v.(phase := Done(Outcome(n, EmptyStreak(visit, n), GoOn))))
         case TaskExists(_) => Some(v.(phase := Done(Outcome(n, EmptyStreak(visit, n), GoOn))))
         case BudgetExceeded(reason) => Some(v.(phase := Done(Outcome(n, EmptyStreak(visit, n), Refused(reason)))))
         case _ => None)
      case Noting(n) => Some(v.(phase := Done(Outcome(n, EmptyStreak(visit, n), MaxPagesReached))))
      case Done(_) => Some(v)
  }

  function Place(visitors: map<ProcId, Visitor>, w: ProcId, v: Option<Visitor>): map<ProcId, Visitor> {
    match v
    case None => visitors - {w}
    case Some(x) => visitors[w := x]
  }

  /** Children of the run and documents of its list pages come from workers on list pages alone. */
  predicate Reserved(s: Sys, a: Action, run: RunId) {
    && (a.CreateChild? || a.SaveDocument?) && a.claim.task in s.db.tasks && s.db.tasks[a.claim.task].run == run
    && (a.CreateChild? || IsListing(s.db.tasks[a.claim.task]))
  }

  predicate AtWork(f: Floor, w: ProcId) {
    w in f.visitors && f.visitors[w].claim.task in f.sys.db.tasks
  }

  /** What the step does to the tables, if anything. */
  function DeedOf(f: Floor, run: RunId, site: Site, st: Step): Option<Action> {
    match st
    case Act(a) => if Reserved(f.sys, a, run) then None else Some(a)
    case Take(w, id, worker, lease) =>
      if w in f.visitors then None else Some(Action.ClaimTask(id, worker, lease, Some(Workflow)))
    case Advance(w, fetched) => if AtWork(f, w) then Deed(f.sys.db, run, site, f.visitors[w], fetched) else None
    case Die(_) => None
  }

  function VisitorsAfter(f: Floor, run: RunId, site: Site, st: Step): map<ProcId, Visitor> {
    match st
    case Act(_) => f.visitors
    case Take(w, id, worker, lease) =>
      var r := TaskModel.ClaimTask(f.sys.db, id, worker, lease, Some(Workflow)).reply;
      if w !in f.visitors && r.Some? && f.sys.db.tasks[id].run == run && IsListing(f.sys.db.tasks[id])
      then f.visitors[w := Visitor(r.value, f.sys.db.tasks[id].document, Holding)] else f.visitors
    case Advance(w, fetched) =>
      if AtWork(f, w) then Place(f.visitors, w, Response(f.sys.db, run, site, f.visitors[w], fetched)) else f.visitors
    case Die(w) => f.visitors - {w}
  }

  function Carry(s: Sys, deed: Option<Action>): Sys {
    if deed.None? then s else Next(s, deed.value)
  }

  function Move(f: Floor, run: RunId, site: Site, st: Step): Floor {
    Floor(Carry(f.sys, DeedOf(f, run, site, st)), VisitorsAfter(f, run, site, st))
  }

  /** The floor after the steps, from an empty database on. */
  function Work(steps: seq<Step>, run: RunId, site: Site): Floor
    decreases |steps|
  {
    if steps == [] then Floor(Init(), map[])
    else Move(Work(steps[..|steps| - 1], run, site), run, site, steps[|steps| - 1])
  }

  // ----- Where workers stand ---------------------------------------------------------------------------

  function Todo(v: Visitor): seq<PageUrl> {
    match v.phase
    case Checking(todo, _) => todo
    case Looking(url, todo, _) => [url] + todo
    case Requesting(url, todo, _) => [url] + todo
    case _ => []
  }

  function Count(v: Visitor): nat {
    match v.phase
    case Holding => 0
    case Checking(_, n) => n
    case Looking(_, _, n) => n
    case Requesting(_, _, n) => n
    case LookingForNext(n) => n
    case CheckingForNext(n) => n
    case RequestingNext(n) => n
    case Noting(n) => n
    case Done(outcome) => outcome.newDetails
  }

  predicate DetailsAreDone(v: Visitor) {
    v.phase.LookingForNext? || v.phase.CheckingForNext? || v.phase.RequestingNext? || v.phase.Noting? || v.phase.Done?
  }

  /** The worker's attempt is the running one and its page has no next page yet. */
  ghost predicate Current(db: Db, c: Claim) {
    Fenced(db, c) && !HasNext(db, c.task)
  }

  /** Every detail of the page that is not to do any more has its task or its refusal. */
  ghost predicate Exhaustive(db: Db, run: RunId, site: Site, v: Visitor) {
    && v.claim.task in db.tasks && db.tasks[v.claim.task].run == run && run in db.runs && v.document.Some?
    && forall url :: url in Followed(site, v.document.value) && url !in Todo(v) ==> Exhausted(db, v.claim.task, url)
  }

  /** The local count tells whether the page has a detail of its own among those that are done. */
  ghost predicate CountIsRight(db: Db, run: RunId, v: Visitor) {
    && (Count(v) > 0 && Current(db, v.claim) ==> DetailsOf(db, run, v.claim.task) != {})
    && (Count(v) == 0 ==> forall t :: t in DetailsOf(db, run, v.claim.task) ==> db.tasks[t].input.url in Todo(v))
  }

  ghost predicate NoDetail(db: Db, run: RunId, url: PageUrl) {
    forall t :: t in db.tasks && db.tasks[t].run == run && db.tasks[t].step == "detail" ==> db.tasks[t].input.url != url
  }

  ghost predicate NoOwnDetail(db: Db, run: RunId, p: TaskId, url: PageUrl) {
    forall t :: t in DetailsOf(db, run, p) ==> db.tasks[t].input.url != url
  }

  /** What the worker has looked up still holds: nobody else adds a detail while it is the current one. */
  ghost predicate LookUpHolds(db: Db, run: RunId, v: Visitor) {
    v.phase.Requesting? ==>
      && (Current(db, v.claim) ==> NoDetail(db, run, v.phase.url))
      && (Fenced(db, v.claim) ==> NoOwnDetail(db, run, v.claim.task, v.phase.url))
  }

  /** Why the worker goes on to the next page, or why it does not. */
  ghost predicate MayGoOn(db: Db, site: Site, v: Visitor)
    requires v.claim.task in db.tasks && v.document.Some?
  {
    && (v.phase.CheckingForNext? || v.phase.RequestingNext? ==>
          && site.next(v.document.value) != site.rules.entry
          && site.next(v.document.value) != site.final(v.document.value)
          && Index(db.tasks[v.claim.task]) < site.rules.maxPages
          && EmptyStreak(VisitOf(db, site, v), Count(v)) < site.rules.maxEmptyPages)
    && (v.phase.Noting? ==> Index(db.tasks[v.claim.task]) >= site.rules.maxPages)
  }

  /** The worker holds an attempt of a list page of the run and works from the page's own document. */
  ghost predicate Attached(db: Db, run: RunId, v: Visitor) {
    && v.claim.task in db.tasks && db.tasks[v.claim.task].run == run && run in db.runs
    && IsListing(db.tasks[v.claim.task])
    && Holds(db, v.claim)
    && (v.document.Some? ==> db.tasks[v.claim.task].document == v.document)
    && (v.document.None? ==> v.phase.Holding? && (Fenced(db, v.claim) ==> db.tasks[v.claim.task].document.None?))
  }

  ghost predicate OnCourse(db: Db, run: RunId, site: Site, v: Visitor) {
    && Exhaustive(db, run, site, v) && CountIsRight(db, run, v) && LookUpHolds(db, run, v) && MayGoOn(db, site, v)
    && forall url :: url in Todo(v) ==> url in Followed(site, v.document.value)
  }

  ghost predicate Seated(db: Db, run: RunId, site: Site, v: Visitor) {
    Attached(db, run, v) && (!v.phase.Holding? ==> OnCourse(db, run, site, v))
  }

  ghost predicate Apart(visitors: map<ProcId, Visitor>) {
    forall w, x :: w in visitors && x in visitors && w != x ==> visitors[w].claim != visitors[x].claim
  }

  ghost predicate Tables(s: Sys, run: RunId, site: Site) {
    Inv(s) && BudgetInv(s.db) && Graph(s.db, run, site)
  }

  ghost predicate FloorInv(f: Floor, run: RunId, site: Site) {
    && Tables(f.sys, run, site) && Apart(f.visitors)
    && forall w :: w in f.visitors ==> Seated(f.sys.db, run, site, f.visitors[w])
  }

  // ----- What the others do ----------------------------------------------------------------------------

  /** The action is not a request or a write of this claim. */
  predicate Foreign(a: Action, c: Claim) {
    a.CreateChild? || a.SaveDocument? ==> a.claim != c
  }

  /** Passing the fence and having no next page are only ever lost. */
  lemma CurrentBefore(s: Sys, a: Action, run: RunId, c: Claim)
    requires Inv(s) && !ReplacesDocument(s, a, run) && Holds(s.db, c)
    requires Current(Next(s, a).db, c)
    ensures Current(s.db, c)
  {
    hide Next, Inv, DbMove, ReplacesDocument;
    StepKeepsInv(s, a);
    StepKeepsPlaces(s, a, run);
    FencedBefore(s, a, c);
  }

  lemma FencedBefore(s: Sys, a: Action, c: Claim)
    requires Inv(s) && Holds(s.db, c) && Fenced(Next(s, a).db, c)
    ensures Fenced(s.db, c)
  {
    hide Next, DbMove, DbInv;
    StepKeepsInv(s, a);
    if !Fenced(s.db, c) {
      LossIsKept(s.db, Next(s, a).db, FootprintOf(s, a), c);
      assert false;
    }
  }

  /** A page that still gets details has no next page. */
  lemma CreatorHasNoNext(s: Sys, a: Action, run: RunId, site: Site, t: TaskId)
    requires Tables(s, run, site) && Respects(s, a, run, site)
    requires t in Next(s, a).db.tasks && t !in s.db.tasks && Next(s, a).db.tasks[t].run == run
    requires Next(s, a).db.tasks[t].step == "detail"
    ensures a.CreateChild? && Fenced(s.db, a.claim) && a.claim.task in ListPagesOf(s.db, run)
    ensures !HasNext(s.db, a.claim.task)
  {
    hide Next, Inv, BudgetInv, DbMove, InGraph, ReplacesDocument;
    StepKeepsInv(s, a);
    InsertsOnly(s.db, Next(s, a).db, FootprintOf(s, a), t);
    if Next(s, a).db.tasks[t].parent.None? {
      InvImpliesOrder(s);
      NewRootOf(s, a, t);
      assert false;
    }
    NewChildOf(s, a, t);
    CreateChildShape(s.db, a.claim, a.step, a.input);
    RunKnown(s, a.claim.task);
    NewDetailIsFresh(s, a, run, a.claim.task, t);
    NewDetailIsFollowed(s, a, run, site, a.claim.task, t);
    if HasNext(s.db, a.claim.task) {
      ChildrenOfTheRun(s, a.claim.task);
      NextMeansExhausted(s.db, run, site, a.claim.task);
      assert false;
    }
  }

  lemma ChildrenOfTheRun(s: Sys, p: TaskId)
    requires Inv(s)
    ensures forall t ::
              t in s.db.tasks && s.db.tasks[t].parent == Some(p) ==>
                p in s.db.tasks && s.db.tasks[t].run == s.db.tasks[p].run
  {
  }

  /** While a worker is the current one on the last page, nobody else adds a detail to the run. */
  lemma NoForeignDetail(s: Sys, a: Action, run: RunId, site: Site, c: Claim, t: TaskId)
    requires Tables(s, run, site) && Respects(s, a, run, site) && Foreign(a, c)
    requires c.task in ListPagesOf(s.db, run) && Current(s.db, c)
    requires t in Next(s, a).db.tasks && Next(s, a).db.tasks[t].run == run && Next(s, a).db.tasks[t].step == "detail"
    ensures t in s.db.tasks
  {
    hide Next, Inv, Graph, HasNext, BudgetInv, Respects;
    if t !in s.db.tasks {
      CreatorHasNoNext(s, a, run, site, t);
      NoTwoAlike(s.db);
      LastPageIsUnique(s.db, run, site, c.task, a.claim.task);
      assert false;
    }
  }

  lemma NoTwoAlike(db: Db)
    requires BudgetInv(db)
    ensures Distinct(db)
  {
  }

  lemma AttachedStays(s: Sys, a: Action, run: RunId, v: Visitor)
    requires Inv(s) && !ReplacesDocument(s, a, run) && Attached(s.db, run, v)
    requires a.SaveDocument? ==> a.claim != v.claim
    ensures Attached(Next(s, a).db, run, v)
  {
    hide Next, Inv, DbMove, ReplacesDocument;
    StepKeepsInv(s, a);
    StepKeepsPlaces(s, a, run);
    AttemptsAreKept(s.db, Next(s, a).db, FootprintOf(s, a));
    HoldingStays(s.db, Next(s, a).db, v.claim);
    if v.document.None? && Fenced(Next(s, a).db, v.claim) {
      FencedBefore(s, a, v.claim);
      DocumentKept(s, a, v.claim.task);
    }
  }

  lemma AttemptsAreKept(o: Db, n: Db, f: Footprint)
    requires DbMove(o, n, f)
    ensures AttemptsMove(o.attempts, n.attempts)
  {
  }

  lemma ExhaustiveStays(o: Db, n: Db, run: RunId, site: Site, v: Visitor)
    requires PlacesKept(o, n, run) && Exhaustive(o, run, site, v)
    ensures Exhaustive(n, run, site, v)
  {
    forall url | url in Followed(site, v.document.value) && url !in Todo(v) ensures Exhausted(n, v.claim.task, url) {
      DetailStaysExhausted(o, n, run, v.claim.task, url);
    }
  }

  lemma CountStaysRight(s: Sys, a: Action, run: RunId, site: Site, v: Visitor)
    requires Tables(s, run, site) && Respects(s, a, run, site) && Foreign(a, v.claim) && Attached(s.db, run, v)
    requires OnCourse(s.db, run, site, v)
    ensures CountIsRight(Next(s, a).db, run, v) && LookUpHolds(Next(s, a).db, run, v)
  {
    hide Next, Inv, BudgetInv, DbMove, Graph, Disciplined, ReplacesDocument, Fenced, HasNext, Exhaustive;
    var n := Next(s, a).db;
    StepKeepsPlaces(s, a, run);
    if Current(n, v.claim) {
      CurrentBefore(s, a, run, v.claim);
      forall t | t in n.tasks && n.tasks[t].run == run && n.tasks[t].step == "detail" ensures t in s.db.tasks {
        NoForeignDetail(s, a, run, site, v.claim, t);
      }
    }
    forall t | t in DetailsOf(n, run, v.claim.task)
      ensures t in s.db.tasks || (n.tasks[t].input.url in Todo(v) && !Fenced(n, v.claim))
    {
      if t !in s.db.tasks {
        NewDetailIsToDo(s, a, run, site, v, t);
      }
    }
    if Fenced(n, v.claim) {
      FencedBefore(s, a, v.claim);
    }
  }

  /** A detail that somebody else adds to the page is one still to do, and the worker has lost its claim. */
  lemma NewDetailIsToDo(s: Sys, a: Action, run: RunId, site: Site, v: Visitor, t: TaskId)
    requires Tables(s, run, site) && Respects(s, a, run, site) && Foreign(a, v.claim) && Attached(s.db, run, v)
    requires OnCourse(s.db, run, site, v) && t in DetailsOf(Next(s, a).db, run, v.claim.task) && t !in s.db.tasks
    ensures Next(s, a).db.tasks[t].input.url in Todo(v) && !Fenced(Next(s, a).db, v.claim)
  {
    hide Next, Inv, BudgetInv, DbMove, Graph, Disciplined, ReplacesDocument, HasNext, Exhausted, CountIsRight;
    StepKeepsInv(s, a);
    InsertsOnly(s.db, Next(s, a).db, FootprintOf(s, a), t);
    NewDetailIsFresh(s, a, run, v.claim.task, t);
    NewDetailIsFollowed(s, a, run, site, v.claim.task, t);
    NewChildOf(s, a, t);
    CreateChildShape(s.db, a.claim, a.step, a.input);
    if Fenced(Next(s, a).db, v.claim) {
      FencedBefore(s, a, v.claim);
      assert false;
    }
  }

  /** What others do leaves a worker where it stands. */
  lemma OthersLeaveSeated(s: Sys, a: Action, run: RunId, site: Site, v: Visitor)
    requires Tables(s, run, site) && Respects(s, a, run, site) && Foreign(a, v.claim) && Seated(s.db, run, site, v)
    ensures Seated(Next(s, a).db, run, site, v)
  {
    hide Next, Inv, BudgetInv, Graph, Disciplined, ReplacesDocument, Exhaustive, CountIsRight, LookUpHolds;
    AttachedStays(s, a, run, v);
    if !v.phase.Holding? {
      StepKeepsPlaces(s, a, run);
      ExhaustiveStays(s.db, Next(s, a).db, run, site, v);
      CountStaysRight(s, a, run, site, v);
    }
  }

  // ----- What a worker does itself ---------------------------------------------------------------------

  /** The next page is requested only when every detail is done, with the right number and streak. */
  lemma RequestIsDisciplined(s: Sys, run: RunId, site: Site, v: Visitor, fetched: nat)
    requires Tables(s, run, site) && Seated(s.db, run, site, v) && v.document.Some?
    requires Deed(s.db, run, site, v, fetched).Some?
    ensures Respects(s, Deed(s.db, run, site, v, fetched).value, run, site)
  {
    hide Inv, BudgetInv, Graph, TaskModel.CreateChild, Exhausted;
    var a := Deed(s.db, run, site, v, fetched).value;
    if CreatesIn(s, a, run) {
      CreatedAddress(s.db, a.claim, a.step, a.input);
      if a.step == "list" {
        CreatedMeansFirst(s, a, run, site, v);
        assert AllExhausted(s.db, site, v.claim.task);
        assert DetailsOf(s.db, run, v.claim.task) != {} <==> Count(v) > 0;
      }
    }
  }

  /** A page that has a next one gets no second: the request finds it. */
  lemma CreatedMeansFirst(s: Sys, a: Action, run: RunId, site: Site, v: Visitor)
    requires Tables(s, run, site) && Attached(s.db, run, v) && v.document.Some?
    requires a.CreateChild? && a.step == "list" && a.claim == v.claim && a.input.url == site.next(v.document.value)
    requires CreatesIn(s, a, run)
    ensures Current(s.db, v.claim)
  {
    hide Inv, BudgetInv, AllExhausted, TaskModel.CreateChild;
    CreatedAddress(s.db, a.claim, a.step, a.input);
    if HasNext(s.db, v.claim.task) {
      var t :| t in s.db.tasks && s.db.tasks[t].parent == Some(v.claim.task) && s.db.tasks[t].step == "list";
      ChildrenOfTheRun(s, v.claim.task);
      assert InGraph(s.db, site, t);
      ExistingIsSameWork(s, t, run, a.input);
      assert false;
    }
  }

  lemma SavingIsDisciplined(s: Sys, run: RunId, site: Site, v: Visitor, fetched: nat)
    requires Attached(s.db, run, v) && v.document.None?
    ensures Respects(s, Action.SaveDocument(v.claim, fetched), run, site)
  {
  }

  /** The worker's first step: the page's document, unless an earlier attempt has left one. */
  lemma SavingSeats(s: Sys, run: RunId, site: Site, v: Visitor, fetched: nat)
    requires Tables(s, run, site) && Seated(s.db, run, site, v) && v.document.None? && MayWrite(s.db, v.claim)
    ensures Seated(Next(s, Action.SaveDocument(v.claim, fetched)).db, run, site, v.(document := Some(fetched)))
  {
    hide Inv, BudgetInv, Graph;
  }

  /** The details a page has come from its document. */
  lemma DetailsAreFollowed(s: Sys, run: RunId, site: Site, p: TaskId, t: TaskId)
    requires Tables(s, run, site) && p in ListPagesOf(s.db, run) && t in DetailsOf(s.db, run, p)
    ensures s.db.tasks[p].document.Some? && s.db.tasks[t].input.url in Followed(site, s.db.tasks[p].document.value)
  {
    hide Inv, BudgetInv, NextPage;
    assert InGraph(s.db, site, t);
  }

  /** Starting on a page: nothing is done yet, nothing is counted yet. */
  lemma StartingSeats(s: Sys, run: RunId, site: Site, v: Visitor, v': Visitor)
    requires Tables(s, run, site) && Attached(s.db, run, v) && v.document.Some?
    requires v' == v.(phase := Checking(Followed(site, v.document.value), 0))
    ensures Seated(s.db, run, site, v')
  {
    hide Inv, BudgetInv, Graph, Exhausted, HasNext;
    forall t | t in DetailsOf(s.db, run, v.claim.task) ensures s.db.tasks[t].input.url in Todo(v') {
      DetailsAreFollowed(s, run, site, v.claim.task, t);
    }
  }

  /** One detail less to do. */
  lemma DoneWith(db: Db, run: RunId, site: Site, v: Visitor, todo: seq<PageUrl>, n: nat, url: PageUrl)
    requires Exhaustive(db, run, site, v) && Todo(v) == [url] + todo && Exhausted(db, v.claim.task, url)
    requires forall u :: u in Todo(v) ==> u in Followed(site, v.document.value)
    requires CountIsRight(db, run, v.(phase := Checking(todo, n)))
    ensures OnCourse(db, run, site, v.(phase := Checking(todo, n)))
  {
    hide Exhausted, CountIsRight;
    forall u | u in Followed(site, v.document.value) && u !in todo ensures Exhausted(db, v.claim.task, u) {
      assert u == url || u !in Todo(v);
    }
    forall u | u in todo ensures u in Todo(v) {
    }
  }

  /** Looking a detail up: its task is counted if it is a child of this page; nobody has it if there is none. */
  lemma LookingSeats(s: Sys, run: RunId, site: Site, v: Visitor, fetched: nat, v': Visitor)
    requires Tables(s, run, site) && Seated(s.db, run, site, v) && v.document.Some? && v.phase.Looking?
    requires Response(s.db, run, site, v, fetched) == Some(v')
    ensures Seated(s.db, run, site, v')
  {
    hide Inv, BudgetInv, Graph, FindWork, HasNext, ChildBudgetReason;
    var url, todo := v.phase.url, v.phase.todo;
    var found := TaskByUrl(s.db, run, "detail", url);
    if found.None? {
      NotFoundIsNone(s, run, site, url);
      assert Todo(v') == Todo(v);
    } else {
      NoTwoAlike(s.db);
      assert s.db.tasks[found.value].input.url == url;
      var mine := s.db.tasks[found.value].parent == Some(v.claim.task);
      assert mine ==> found.value in DetailsOf(s.db, run, v.claim.task);
      forall t | t in DetailsOf(s.db, run, v.claim.task) && !mine ensures s.db.tasks[t].input.url != url {
        assert t != found.value;
      }
      DoneWith(s.db, run, site, v, todo, v'.phase.count, url);
    }
  }

  lemma NotFoundIsNone(s: Sys, run: RunId, site: Site, url: PageUrl)
    requires Tables(s, run, site) && FindWork(s.db, run, "detail", DetailInput(url), 0).None?
    ensures NoDetail(s.db, run, url)
  {
    hide Inv, BudgetInv, Graph;
    forall t | t in s.db.tasks && s.db.tasks[t].run == run && s.db.tasks[t].step == "detail"
      ensures s.db.tasks[t].input.url != url
    {
      if s.db.tasks[t].input.url == url {
        DetailHasAddress(s, run, site, t);
        ExistingIsSameWork(s, t, run, DetailInput(url));
        assert false;
      }
    }
  }

  lemma DetailHasAddress(s: Sys, run: RunId, site: Site, t: TaskId)
    requires Tables(s, run, site) && t in s.db.tasks && s.db.tasks[t].run == run && s.db.tasks[t].step == "detail"
    ensures s.db.tasks[t].input.url != EMPTY_URL
  {
    hide NextPage;
    assert InGraph(s.db, site, t) && Placed(s.db, t);
  }

  /** Requesting a detail: afterwards it has a task or a refusal, and a new task is a child of this page. */
  lemma RequestingSeats(s: Sys, run: RunId, site: Site, v: Visitor, fetched: nat, a: Action, v': Visitor)
    requires Tables(s, run, site) && Seated(s.db, run, site, v) && v.document.Some? && v.phase.Requesting?
    requires Deed(s.db, run, site, v, fetched) == Some(a) && Response(s.db, run, site, v, fetched) == Some(v')
    ensures Seated(Next(s, a).db, run, site, v')
  {
    hide Inv, BudgetInv, Graph, FindWork, HasNext, ChildBudgetReason, TaskModel.CreateChild, Exhausted, Current;
    var url, todo := v.phase.url, v.phase.todo;
    RequestIsDisciplined(s, run, site, v, fetched);
    AttachedStays(s, a, run, v);
    StepKeepsPlaces(s, a, run);
    ExhaustiveStays(s.db, Next(s, a).db, run, site, v);
    RequestExhausts(s, run, v.claim, url);
    RequestCounts(s, run, site, v, fetched, a, v');
    DoneWith(Next(s, a).db, run, site, v, todo, v'.phase.count, url);
  }

  lemma RequestExhausts(s: Sys, run: RunId, c: Claim, url: PageUrl)
    requires Inv(s) && c.task in s.db.tasks && s.db.tasks[c.task].run == run && run in s.db.runs
    requires var reply := TaskModel.CreateChild(s.db, c, "detail", DetailInput(url)).reply;
             !reply.RunInactive? && !reply.StaleAttempt?
    ensures var n := TaskModel.CreateChild(s.db, c, "detail", DetailInput(url)).db;
            c.task in n.tasks && n.tasks[c.task].run in n.runs && Exhausted(n, c.task, url)
  {
    hide Inv;
    var r := TaskModel.CreateChild(s.db, c, "detail", DetailInput(url));
    InvImpliesOrder(s);
    CreateChildShape(s.db, c, "detail", DetailInput(url));
    match r.reply
    case TaskCreated(id) => assert r.db.tasks[id].step == "detail" && r.db.tasks[id].input.url == url;
    case TaskExists(id) => assert r.db.tasks[id].step == "detail" && r.db.tasks[id].input.url == url;
    case BudgetExceeded(_) =>
      assert ChildBudgetReason(s.db, run, c.task, "detail", DetailInput(url)).Some?;
      assert TasksOf(r.db, run) == TasksOf(s.db, run) && DetailsOf(r.db, run, c.task) == DetailsOf(s.db, run, c.task);
    case _ =>
  }

  lemma RequestCounts(s: Sys, run: RunId, site: Site, v: Visitor, fetched: nat, a: Action, v': Visitor)
    requires Tables(s, run, site) && Seated(s.db, run, site, v) && v.document.Some? && v.phase.Requesting?
    requires Deed(s.db, run, site, v, fetched) == Some(a) && Response(s.db, run, site, v, fetched) == Some(v')
    ensures CountIsRight(Next(s, a).db, run, v')
  {
    hide BudgetInv, Graph, Inv, HasNext, TaskModel.CreateChild, ReplacesDocument, Exhaustive;
    var n, r := Next(s, a).db, TaskModel.CreateChild(s.db, v.claim, "detail", DetailInput(v.phase.url));
    InvImpliesOrder(s);
    CreateChildShape(s.db, v.claim, "detail", DetailInput(v.phase.url));
    if Current(n, v.claim) {
      RequestIsDisciplined(s, run, site, v, fetched);
      CurrentBefore(s, a, run, v.claim);
      ExistingIsDetail(s.db, v.claim, v.phase.url);
      if r.reply.TaskCreated? {
        assert r.reply.id in DetailsOf(n, run, v.claim.task);
      } else {
        assert DetailsOf(n, run, v.claim.task) == DetailsOf(s.db, run, v.claim.task);
      }
    }
  }

  lemma ExistingIsDetail(db: Db, c: Claim, url: PageUrl)
    ensures var r := TaskModel.CreateChild(db, c, "detail", DetailInput(url)).reply;
            r.TaskExists? ==> c.task in db.tasks && !NoDetail(db, db.tasks[c.task].run, url)
  {
  }

  /** The worker's last request leaves it seated: its page has a next one now, or a refusal. */
  lemma NextSeats(s: Sys, run: RunId, site: Site, v: Visitor, fetched: nat, a: Action, v': Visitor)
    requires Tables(s, run, site) && Seated(s.db, run, site, v) && v.document.Some? && v.phase.RequestingNext?
    requires Deed(s.db, run, site, v, fetched) == Some(a) && Response(s.db, run, site, v, fetched) == Some(v')
    ensures Seated(Next(s, a).db, run, site, v')
  {
    hide Inv, BudgetInv, Graph, HasNext, TaskModel.CreateChild, Exhausted, Next, CountIsRight;
    RequestIsDisciplined(s, run, site, v, fetched);
    AttachedStays(s, a, run, v);
    StepKeepsPlaces(s, a, run);
    ExhaustiveStays(s.db, Next(s, a).db, run, site, v);
    NextCounts(s, run, site, v, fetched, a, v');
  }

  lemma NextCounts(s: Sys, run: RunId, site: Site, v: Visitor, fetched: nat, a: Action, v': Visitor)
    requires Tables(s, run, site) && Seated(s.db, run, site, v) && v.document.Some? && v.phase.RequestingNext?
    requires Deed(s.db, run, site, v, fetched) == Some(a) && Response(s.db, run, site, v, fetched) == Some(v')
    ensures CountIsRight(Next(s, a).db, run, v')
  {
    hide Inv, BudgetInv, Graph, Current, TaskModel.CreateChild, Exhausted, Exhaustive, ReplacesDocument, Disciplined;
    NextIsNoDetail(s, v.claim, run, a.input);
    if Current(Next(s, a).db, v.claim) {
      RequestIsDisciplined(s, run, site, v, fetched);
      CurrentBefore(s, a, run, v.claim);
    }
  }

  lemma NextIsNoDetail(s: Sys, c: Claim, run: RunId, input: TaskInput)
    requires Inv(s)
    ensures var n := Next(s, Action.CreateChild(c, "list", input)).db;
            && DetailsOf(n, run, c.task) == DetailsOf(s.db, run, c.task)
            && forall t :: t in s.db.tasks ==> t in n.tasks && n.tasks[t].input == s.db.tasks[t].input
  {
    hide TaskModel.CreateChild, DbInv;
    InvImpliesOrder(s);
    CreateChildShape(s.db, c, "list", input);
  }

  /** Checks and look-ups change no table. */
  lemma ReadingSeats(s: Sys, run: RunId, site: Site, v: Visitor, fetched: nat, v': Visitor)
    requires Tables(s, run, site) && Seated(s.db, run, site, v) && v.document.Some?
    requires Deed(s.db, run, site, v, fetched).None? && Response(s.db, run, site, v, fetched) == Some(v')
    ensures Seated(s.db, run, site, v')
  {
    hide Inv, BudgetInv, Graph, HasNext, Exhausted, FindWork;
    match v.phase
    case Holding => StartingSeats(s, run, site, v, v');
    case Looking(_, _, _) => LookingSeats(s, run, site, v, fetched, v');
    case Checking(todo, n) => assert todo != [] ==> [todo[0]] + todo[1..] == todo;
    case _ =>
  }

  /** Recording a limit changes nothing a worker relies on. */
  lemma RecordingSeats(s: Sys, run: RunId, site: Site, v: Visitor, fetched: nat, a: Action, v': Visitor)
    requires Tables(s, run, site) && Seated(s.db, run, site, v) && v.document.Some?
    requires v.phase.Holding? || v.phase.Noting?
    requires Deed(s.db, run, site, v, fetched) == Some(a) && Response(s.db, run, site, v, fetched) == Some(v')
    ensures Seated(Next(s, a).db, run, site, v')
  {
    hide Inv, BudgetInv, Graph, Next, Disciplined;
    if v.phase.Holding? {
      StartingSeats(s, run, site, v, v');
    } else {
      assert Todo(v) == Todo(v') && Count(v) == Count(v');
    }
    RequestIsDisciplined(s, run, site, v, fetched);
    OthersLeaveSeated(s, a, run, site, v');
  }

  lemma ActorSeated(s: Sys, run: RunId, site: Site, v: Visitor, fetched: nat, v': Visitor)
    requires Tables(s, run, site) && Seated(s.db, run, site, v)
    requires Response(s.db, run, site, v, fetched) == Some(v')
    ensures Seated(Carry(s, Deed(s.db, run, site, v, fetched)).db, run, site, v')
  {
    hide Tables, Next, TaskByUrl, StopAfter, TaskModel.CreateChild, OnCourse;
    if v.document.None? {
      SavingSeats(s, run, site, v, fetched);
      return;
    }
    var deed := Deed(s.db, run, site, v, fetched);
    if deed.None? {
      ReadingSeats(s, run, site, v, fetched, v');
    } else if v.phase.Requesting? {
      RequestingSeats(s, run, site, v, fetched, deed.value, v');
    } else if v.phase.RequestingNext? {
      NextSeats(s, run, site, v, fetched, deed.value, v');
    } else {
      RecordingSeats(s, run, site, v, fetched, deed.value, v');
    }
  }

  // ----- Every step of the floor -----------------------------------------------------------------------

  lemma DeedRespects(f: Floor, run: RunId, site: Site, st: Step)
    requires FloorInv(f, run, site) && DeedOf(f, run, site, st).Some?
    ensures Respects(f.sys, DeedOf(f, run, site, st).value, run, site)
  {
    hide Inv, BudgetInv, Graph, TaskModel.CreateChild, OnCourse, Apart;
    match st
    case Advance(w, fetched) =>
      if f.visitors[w].document.None? {
        SavingIsDisciplined(f.sys, run, site, f.visitors[w], fetched);
      } else {
        RequestIsDisciplined(f.sys, run, site, f.visitors[w], fetched);
      }
    case _ =>
  }

  /** A step of the floor is foreign to every worker but the one that takes it. */
  lemma DeedIsForeign(f: Floor, run: RunId, site: Site, st: Step, w: ProcId)
    requires FloorInv(f, run, site) && DeedOf(f, run, site, st).Some? && w in f.visitors
    requires st.Advance? ==> st.w != w
    ensures Foreign(DeedOf(f, run, site, st).value, f.visitors[w].claim)
  {
    hide Inv, BudgetInv, Graph, OnCourse;
    assert Attached(f.sys.db, run, f.visitors[w]);
  }

  lemma TablesStay(s: Sys, a: Action, run: RunId, site: Site)
    requires Tables(s, run, site) && Respects(s, a, run, site)
    ensures Tables(Next(s, a), run, site)
  {
    hide Inv, BudgetInv, Graph, Next, Respects, DbMove;
    StepKeepsInv(s, a);
    StepKeepsBudget(s, a);
    GraphStep(s, a, run, site);
  }

  lemma OtherSeated(f: Floor, run: RunId, site: Site, st: Step, w: ProcId)
    requires FloorInv(f, run, site) && w in f.visitors && (st.Advance? ==> st.w != w)
    ensures Seated(Move(f, run, site, st).sys.db, run, site, f.visitors[w])
  {
    hide Tables, Next, Respects, Seated, DeedOf, VisitorsAfter, Apart, Foreign;
    if DeedOf(f, run, site, st).Some? {
      DeedRespects(f, run, site, st);
      DeedIsForeign(f, run, site, st, w);
      OthersLeaveSeated(f.sys, DeedOf(f, run, site, st).value, run, site, f.visitors[w]);
    }
  }

  /** A fresh claim is none of those held before. */
  lemma TakerSeated(f: Floor, run: RunId, site: Site, st: Step)
    requires FloorInv(f, run, site) && st.Take? && st.w !in f.visitors && st.w in VisitorsAfter(f, run, site, st)
    ensures Seated(Move(f, run, site, st).sys.db, run, site, VisitorsAfter(f, run, site, st)[st.w])
    ensures forall x :: x in f.visitors ==> f.visitors[x].claim != VisitorsAfter(f, run, site, st)[st.w].claim
  {
    hide Inv, BudgetInv, Graph, OnCourse, DbInv;
    forall x | x in f.visitors ensures f.visitors[x].claim != VisitorsAfter(f, run, site, st)[st.w].claim {
      assert Attached(f.sys.db, run, f.visitors[x]);
      ClaimKnown(f.sys, f.visitors[x].claim);
    }
    RunKnown(f.sys, st.id);
  }

  lemma ClaimKnown(s: Sys, c: Claim)
    requires Inv(s) && Holds(s.db, c)
    ensures c.task in s.db.tasks && c.no <= s.db.tasks[c.task].attemptCount
  {
    ClaimedNumber(s.db, c.task, c.no);
  }

  lemma VisitorSeated(f: Floor, run: RunId, site: Site, st: Step, w: ProcId)
    requires FloorInv(f, run, site) && w in Move(f, run, site, st).visitors
    ensures Seated(Move(f, run, site, st).sys.db, run, site, Move(f, run, site, st).visitors[w])
    ensures w in f.visitors ==> Move(f, run, site, st).visitors[w].claim == f.visitors[w].claim
    ensures w !in f.visitors ==> st.Take? && st.w == w
  {
    hide Tables, Next, OnCourse, Apart, Deed, Response, TaskModel.ClaimTask, Fenced, MayWrite;
    if st.Advance? && st.w == w {
      ActorSeated(f.sys, run, site, f.visitors[w], st.fetched, Move(f, run, site, st).visitors[w]);
      ResponseKeepsClaim(f.sys.db, run, site, f.visitors[w], st.fetched);
    } else if w in f.visitors {
      OtherSeated(f, run, site, st, w);
    } else {
      TakerSeated(f, run, site, st);
    }
  }

  lemma ResponseKeepsClaim(db: Db, run: RunId, site: Site, v: Visitor, fetched: nat)
    requires v.claim.task in db.tasks && Response(db, run, site, v, fetched).Some?
    ensures Response(db, run, site, v, fetched).value.claim == v.claim
  {
    hide TaskModel.CreateChild, TaskByUrl, StopAfter;
  }

  lemma FloorStep(f: Floor, run: RunId, site: Site, st: Step)
    requires FloorInv(f, run, site)
    ensures FloorInv(Move(f, run, site, st), run, site)
  {
    hide Tables, Next, Seated, Respects, DeedOf, VisitorsAfter;
    var n := Move(f, run, site, st);
    if DeedOf(f, run, site, st).Some? {
      DeedRespects(f, run, site, st);
      TablesStay(f.sys, DeedOf(f, run, site, st).value, run, site);
    }
    forall w | w in n.visitors
      ensures Seated(n.sys.db, run, site, n.visitors[w])
      ensures w in f.visitors ==> n.visitors[w].claim == f.visitors[w].claim
      ensures w !in f.visitors ==> st.Take? && st.w == w && forall x ::
                x in f.visitors ==> f.visitors[x].claim != n.visitors[w].claim
    {
      VisitorSeated(f, run, site, st, w);
      if w !in f.visitors {
        TakerSeated(f, run, site, st);
      }
    }
  }

  lemma {:induction false} FloorHolds(steps: seq<Step>, run: RunId, site: Site)
    ensures FloorInv(Work(steps, run, site), run, site)
    decreases |steps|
  {
    hide FloorInv, Move;
    if steps == [] {
      FloorInitially(run, site);
    } else {
      FloorHolds(steps[..|steps| - 1], run, site);
      FloorStep(Work(steps[..|steps| - 1], run, site), run, site, steps[|steps| - 1]);
    }
  }

  lemma FloorInitially(run: RunId, site: Site)
    ensures FloorInv(Floor(Init(), map[]), run, site)
  {
    hide Inv, BudgetInv;
    InvInitially();
    NoRowsNoCosts();
  }

  /**
   In every run of the system the list pages of a run are one path: numbers identify pages, the k-th hangs
   below the (k-1)-th, there are no more than allowed, no two have the same address, none leads back to the
   entry, a page with a next one has all its details done, and each carries the length of its empty streak.
   */
  lemma ListPagesFormOnePath(steps: seq<Step>, run: RunId, site: Site)
    requires site.rules.maxPages >= 1
    ensures var db := Work(steps, run, site).sys.db;
            var pages := ListPagesOf(db, run);
            && |pages| <= site.rules.maxPages
            && (forall t, u :: t in pages && u in pages && Index(db.tasks[t]) == Index(db.tasks[u]) ==> t == u)
            && (forall t :: t in pages && db.tasks[t].parent.Some? ==> OnPath(db, run, site, t))
  {
    hide FloorInv, Work, Barren, InGraph;
    FloorHolds(steps, run, site);
    var f := Work(steps, run, site);
    var db := f.sys.db;
    FloorGraph(f, run, site);
    PathIsShort(db, run, site);
    forall t, u | t in ListPagesOf(db, run) && u in ListPagesOf(db, run) && Index(db.tasks[t]) == Index(db.tasks[u])
      ensures t == u
    {
      PageNumbersAreUnique(db, run, site, t, u);
    }
    forall t | t in ListPagesOf(db, run) && db.tasks[t].parent.Some? ensures OnPath(db, run, site, t) {
      StandsOnPath(db, run, site, t);
    }
  }

  ghost predicate OnPath(db: Db, run: RunId, site: Site, t: TaskId)
    requires t in db.tasks && db.tasks[t].parent.Some?
  {
    var row, p := db.tasks[t], db.tasks[t].parent.value;
    && 2 <= Index(row) && p in ListPagesOf(db, run) && Index(db.tasks[p]) == Index(row) - 1
    && AllExhausted(db, site, p) && row.input.url == site.next(db.tasks[p].document.value)
    && row.input.url != site.rules.entry
    && row.input.emptyStreak == Barren(db, t)
    && forall u ::
         u in ListPagesOf(db, run) && u != t && db.tasks[u].step == "list" ==> db.tasks[u].input.url != row.input.url
  }

  lemma FloorGraph(f: Floor, run: RunId, site: Site)
    requires FloorInv(f, run, site)
    ensures Graph(f.sys.db, run, site) && Distinct(f.sys.db)
  {
    hide Graph;
  }

  lemma StandsOnPath(db: Db, run: RunId, site: Site, t: TaskId)
    requires Graph(db, run, site) && Distinct(db) && t in ListPagesOf(db, run) && db.tasks[t].parent.Some?
    ensures OnPath(db, run, site, t)
  {
    hide Barren, AllExhausted;
    PageNumbers(db, run, site, t);
    assert InGraph(db, site, t);
    StreakCountsBarrenPages(db, run, site, t);
  }
}
