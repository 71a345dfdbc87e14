/**
 A list page that a worker has been through once: whatever happens afterwards, however often its task is
 claimed and done again, it gets no further child.
 */
module ListFinished {
  import opened Common
  import opened CrawlPolicy
  import opened TaskModel
  import opened TaskSystem
  import opened Ownership
  import opened Protocol
  import opened BudgetSafety
  import opened ListingReplay
  import opened Listing
  import opened ListPath
  import opened ListWorkers

  ghost predicate ListedAlready(db: Db, run: RunId, url: PageUrl) {
    exists t :: t in db.tasks && db.tasks[t].run == run && db.tasks[t].step == "list" && db.tasks[t].input.url == url
  }

  /** The page can get no next page any more. */
  ghost predicate NextIsSettled(db: Db, run: RunId, site: Site, p: TaskId)
    requires p in db.tasks && run in db.runs && db.tasks[p].document.Some?
  {
    var d := db.tasks[p].document.value; var url := site.next(d);
    || url == EMPTY_URL || url == site.rules.entry || url == site.final(d)
    || ListedAlready(db, run, url)
    || Index(db.tasks[p]) >= site.rules.maxPages
    || StreakAfter(db, p) >= site.rules.maxEmptyPages
    || ChildBudgetReason(db, run, p, "list", DetailInput(url)).Some?
  }

  ghost predicate Finished(db: Db, run: RunId, site: Site, p: TaskId) {
    && p in ListPagesOf(db, run) && run in db.runs && db.tasks[p].document.Some?
    && AllExhausted(db, site, p) && NextIsSettled(db, run, site, p)
  }

  lemma FinishedStays(s: Sys, a: Action, run: RunId, site: Site, p: TaskId)
    requires Tables(s, run, site) && Respects(s, a, run, site) && Finished(s.db, run, site, p)
    ensures Finished(Next(s, a).db, run, site, p)
  {
    hide Next, Inv, BudgetInv, Graph, Disciplined, ReplacesDocument, AllExhausted, ChildBudgetReason;
    var n, url := Next(s, a).db, site.next(s.db.tasks[p].document.value);
    StepKeepsPlaces(s, a, run);
    ExhaustionStays(s.db, n, run, site, p);
    ExhaustedPageGetsNoDetail(s, a, run, site, p);
    if ChildBudgetReason(s.db, run, p, "list", DetailInput(url)).Some? {
      RefusalStays(s.db, n, run, p, "list", DetailInput(url));
    }
    if ListedAlready(s.db, run, url) {
      var t :| t in s.db.tasks && s.db.tasks[t].run == run && s.db.tasks[t].step == "list"
          && s.db.tasks[t].input.url == url;
      assert t in n.tasks && n.tasks[t].step == "list";
    }
  }

  /** A finished page gets no child. */
  lemma FinishedGetsNoChild(s: Sys, a: Action, run: RunId, site: Site, p: TaskId, t: TaskId)
    requires Tables(s, run, site) && Respects(s, a, run, site) && Finished(s.db, run, site, p)
    requires t in Next(s, a).db.tasks && Next(s, a).db.tasks[t].parent == Some(p)
    ensures t in s.db.tasks
  {
    hide Next, Inv, BudgetInv, Graph, ReplacesDocument, AllExhausted, ChildBudgetReason, TaskModel.CreateChild;
    if t !in s.db.tasks {
      StepKeepsInv(s, a);
      NewRowInserts(s, a, t);
      NewChildOf(s, a, t);
      CreatedAddress(s.db, a.claim, a.step, a.input);
      if a.step == "detail" {
        FinishedGetsNoDetail(s, a, run, site, p, t);
      } else {
        NewListIsUnlisted(s, a, run);
        SameReason(s.db, run, p, a.input);
        assert false;
      }
    }
  }

  lemma FinishedGetsNoDetail(s: Sys, a: Action, run: RunId, site: Site, p: TaskId, t: TaskId)
    requires Tables(s, run, site) && Respects(s, a, run, site) && Finished(s.db, run, site, p)
    requires t in DetailsOf(Next(s, a).db, run, p)
    ensures t in s.db.tasks
  {
    hide Next, Inv, BudgetInv, Graph, Respects, AllExhausted;
    ExhaustedPageGetsNoDetail(s, a, run, site, p);
    assert t in DetailsOf(s.db, run, p);
  }

  lemma NewRowInserts(s: Sys, a: Action, t: TaskId)
    requires Inv(s) && t in Next(s, a).db.tasks && t !in s.db.tasks
    ensures FootprintOf(s, a).inserts
  {
    hide Next, Inv;
    StepKeepsInv(s, a);
    InsertsOnly(s.db, Next(s, a).db, FootprintOf(s, a), t);
  }

  lemma NewListIsUnlisted(s: Sys, a: Action, run: RunId)
    requires Inv(s) && BudgetInv(s.db) && CreatesIn(s, a, run) && a.step == "list"
    ensures !ListedAlready(s.db, run, a.input.url)
  {
    hide Inv, BudgetInv, TaskModel.CreateChild;
    CreatedAddress(s.db, a.claim, a.step, a.input);
    if ListedAlready(s.db, run, a.input.url) {
      var x :| x in s.db.tasks && s.db.tasks[x].run == run && s.db.tasks[x].step == "list"
          && s.db.tasks[x].input.url == a.input.url;
      ExistingIsSameWork(s, x, run, a.input);
      assert false;
    }
  }

  /** The budget looks at nothing of a page's input but the address. */
  lemma SameReason(db: Db, run: RunId, p: TaskId, input: TaskInput)
    requires run in db.runs && p in db.tasks
    ensures ChildBudgetReason(db, run, p, "list", input)
            == ChildBudgetReason(db, run, p, "list", DetailInput(input.url))
  {
  }

  // ----- Every worker that is done has finished its page -----------------------------------------------

  ghost predicate DoneIsFinished(db: Db, run: RunId, site: Site, v: Visitor) {
    v.phase.Done? ==> Finished(db, run, site, v.claim.task)
  }

  ghost predicate AllFinished(f: Floor, run: RunId, site: Site) {
    forall w :: w in f.visitors ==> DoneIsFinished(f.sys.db, run, site, f.visitors[w])
  }

  lemma SeatedIsExhausted(db: Db, run: RunId, site: Site, v: Visitor)
    requires Seated(db, run, site, v) && DetailsAreDone(v)
    ensures AllExhausted(db, site, v.claim.task)
  {
    hide Exhausted, Current, HasNext;
  }

  /** A worker that stops after looking for the next page has a reason that lasts. */
  lemma StoppingFinishes(s: Sys, run: RunId, site: Site, v: Visitor, fetched: nat, v': Visitor)
    requires Tables(s, run, site) && Seated(s.db, run, site, v) && v.document.Some? && v.phase.LookingForNext?
    requires Response(s.db, run, site, v, fetched) == Some(v') && v'.phase.Done?
    ensures Finished(s.db, run, site, v.claim.task)
  {
    hide Inv, BudgetInv, Graph, Exhausted, Current, HasNext, AllExhausted;
    SeatedIsExhausted(s.db, run, site, v);
    var visit, n := VisitOf(s.db, site, v), v.phase.count;
    NoneFoundNoneThere(s.db, run, v);
    if EmptyStreak(visit, n) >= site.rules.maxEmptyPages && n > 0 {
      StreaksAreNatural(s.db, run, site, v.claim.task);
    }
  }

  /** A worker that has counted nothing is on a page without details. */
  lemma NoneFoundNoneThere(db: Db, run: RunId, v: Visitor)
    requires CountIsRight(db, run, v) && Todo(v) == []
    ensures Count(v) == 0 ==> DetailsOf(db, run, v.claim.task) == {}
  {
  }

  lemma StreaksAreNatural(db: Db, run: RunId, site: Site, p: TaskId)
    requires Graph(db, run, site) && p in ListPagesOf(db, run)
    ensures StreakAfter(db, p) >= 0
  {
    if db.tasks[p].step == "list" {
      StreakCountsBarrenPages(db, run, site, p);
    }
  }

  /** The last request leaves a next page or a refusal that lasts. */
  lemma RequestFinishes(s: Sys, run: RunId, site: Site, v: Visitor, fetched: nat, a: Action, v': Visitor)
    requires Tables(s, run, site) && Seated(s.db, run, site, v) && v.document.Some? && v.phase.RequestingNext?
    requires Deed(s.db, run, site, v, fetched) == Some(a) && Response(s.db, run, site, v, fetched) == Some(v')
    ensures Finished(Next(s, a).db, run, site, v.claim.task)
  {
    hide Inv, BudgetInv, Graph, Exhausted, Current, HasNext, AllExhausted, TaskModel.CreateChild, Next,
        ChildBudgetReason, StreakAfter;
    NextSeats(s, run, site, v, fetched, a, v');
    SeatedIsExhausted(Next(s, a).db, run, site, v');
    RequestSettles(s, run, v.claim, a.input);
  }

  lemma RequestSettles(s: Sys, run: RunId, c: Claim, input: TaskInput)
    requires Inv(s) && c.task in s.db.tasks && s.db.tasks[c.task].run == run && run in s.db.runs
    requires var reply := TaskModel.CreateChild(s.db, c, "list", input).reply;
             !reply.RunInactive? && !reply.StaleAttempt?
    ensures var n := Next(s, Action.CreateChild(c, "list", input)).db;
            && c.task in n.tasks && run in n.runs
            && (|| ListedAlready(n, run, input.url)
                || ChildBudgetReason(n, run, c.task, "list", DetailInput(input.url)).Some?)
  {
    hide DbInv;
    InvImpliesOrder(s);
    var r := TaskModel.CreateChild(s.db, c, "list", input);
    CreateChildShape(s.db, c, "list", input);
    match r.reply
    case TaskCreated(id) => assert r.db.tasks[id].step == "list" && r.db.tasks[id].input.url == input.url;
    case TaskExists(id) => assert r.db.tasks[id].step == "list" && r.db.tasks[id].input.url == input.url;
    case BudgetExceeded(_) => RefusedStays(s.db, r.db, run, c.task, input);
    case _ =>
  }

  lemma RefusedStays(o: Db, n: Db, run: RunId, p: TaskId, input: TaskInput)
    requires n == o.(limits := n.limits) && run in o.runs && p in o.tasks
    requires ChildBudgetReason(o, run, p, "list", input).Some?
    ensures ChildBudgetReason(n, run, p, "list", DetailInput(input.url)).Some?
  {
    assert TasksOf(n, run) == TasksOf(o, run);
  }

  lemma ActorFinishes(s: Sys, run: RunId, site: Site, v: Visitor, fetched: nat, v': Visitor)
    requires Tables(s, run, site) && Seated(s.db, run, site, v) && DoneIsFinished(s.db, run, site, v)
    requires Response(s.db, run, site, v, fetched) == Some(v')
    ensures DoneIsFinished(Carry(s, Deed(s.db, run, site, v, fetched)).db, run, site, v')
  {
    hide Tables, Next, TaskByUrl, StopAfter, TaskModel.CreateChild, Finished, Exhausted, CountIsRight, LookUpHolds;
    var deed := Deed(s.db, run, site, v, fetched);
    if v'.phase.Done? {
      ResponseKeepsClaim(s.db, run, site, v, fetched);
      match v.phase
      case LookingForNext(_) => StoppingFinishes(s, run, site, v, fetched, v');
      case RequestingNext(_) => RequestFinishes(s, run, site, v, fetched, deed.value, v');
      case Noting(_) => NotingFinishes(s, run, site, v, fetched, deed.value);
      case _ =>
    }
  }

  lemma NotingFinishes(s: Sys, run: RunId, site: Site, v: Visitor, fetched: nat, a: Action)
    requires Tables(s, run, site) && Seated(s.db, run, site, v) && v.document.Some? && v.phase.Noting?
    requires Deed(s.db, run, site, v, fetched) == Some(a)
    ensures Finished(Next(s, a).db, run, site, v.claim.task)
  {
    hide Inv, BudgetInv, Graph, Exhausted, AllExhausted, Next, Disciplined, ReplacesDocument, CountIsRight, LookUpHolds;
    SeatedIsExhausted(s.db, run, site, v);
    RequestIsDisciplined(s, run, site, v, fetched);
    FinishedStays(s, a, run, site, v.claim.task);
  }

  lemma VisitorFinishes(f: Floor, run: RunId, site: Site, st: Step, w: ProcId)
    requires FloorInv(f, run, site) && AllFinished(f, run, site) && w in Move(f, run, site, st).visitors
    ensures DoneIsFinished(Move(f, run, site, st).sys.db, run, site, Move(f, run, site, st).visitors[w])
  {
    hide Tables, Next, OnCourse, Apart, Deed, Response, TaskModel.ClaimTask, Fenced, MayWrite, Finished, Respects;
    if st.Advance? && st.w == w {
      ActorFinishes(f.sys, run, site, f.visitors[w], st.fetched, Move(f, run, site, st).visitors[w]);
    } else if w in f.visitors && f.visitors[w].phase.Done? && DeedOf(f, run, site, st).Some? {
      DeedRespects(f, run, site, st);
      FinishedStays(f.sys, DeedOf(f, run, site, st).value, run, site, f.visitors[w].claim.task);
    }
  }

  lemma FinishedStep(f: Floor, run: RunId, site: Site, st: Step)
    requires FloorInv(f, run, site) && AllFinished(f, run, site)
    ensures AllFinished(Move(f, run, site, st), run, site)
  {
    hide Tables, Next, Seated, Respects, DeedOf, VisitorsAfter, DoneIsFinished, Apart;
    var n := Move(f, run, site, st);
    forall w | w in n.visitors ensures DoneIsFinished(n.sys.db, run, site, n.visitors[w]) {
      VisitorFinishes(f, run, site, st, w);
    }
  }

  lemma {:induction false} FinishedHolds(steps: seq<Step>, run: RunId, site: Site)
    ensures AllFinished(Work(steps, run, site), run, site)
    decreases |steps|
  {
    hide FloorInv, Move, DoneIsFinished;
    if steps != [] {
      var front := steps[..|steps| - 1];
      FinishedHolds(front, run, site);
      FloorHolds(front, run, site);
      FinishedStep(Work(front, run, site), run, site, steps[|steps| - 1]);
    }
  }

  function ChildrenOf(db: Db, p: TaskId): set<TaskId> {
    set t | t in db.tasks && db.tasks[t].parent == Some(p)
  }

  lemma ChildrenStay(f: Floor, run: RunId, site: Site, st: Step, p: TaskId)
    requires FloorInv(f, run, site) && Finished(f.sys.db, run, site, p)
    ensures ChildrenOf(Move(f, run, site, st).sys.db, p) == ChildrenOf(f.sys.db, p)
    ensures Finished(Move(f, run, site, st).sys.db, run, site, p)
  {
    hide Tables, Next, Seated, Respects, DeedOf, VisitorsAfter, Finished, Apart;
    if DeedOf(f, run, site, st).Some? {
      var a := DeedOf(f, run, site, st).value;
      DeedRespects(f, run, site, st);
      FinishedStays(f.sys, a, run, site, p);
      ParentsStay(f.sys, a, run, site, p);
      forall t | t in ChildrenOf(Next(f.sys, a).db, p) ensures t in f.sys.db.tasks {
        FinishedGetsNoChild(f.sys, a, run, site, p, t);
      }
    }
  }

  lemma ParentsStay(s: Sys, a: Action, run: RunId, site: Site, p: TaskId)
    requires Tables(s, run, site) && Respects(s, a, run, site)
    ensures forall t ::
              t in s.db.tasks ==> t in Next(s, a).db.tasks && Next(s, a).db.tasks[t].parent == s.db.tasks[t].parent
  {
    hide Next, Inv, BudgetInv, Graph, Disciplined, ReplacesDocument;
    StepKeepsPlaces(s, a, run);
  }

  /**
   Once some worker has been through a list page, whatever its answer was, no step that follows gives the page
   another child: not a replay after a crash, not a retry, however far the pages after it have got by then.
   */
  lemma {:induction false} FinishedPageCreatesNothing(steps: seq<Step>, more: seq<Step>, run: RunId, site: Site,
                                                      w: ProcId)
    ensures var f := Work(steps, run, site);
            w in f.visitors && f.visitors[w].phase.Done? ==>
              var p := f.visitors[w].claim.task;
              && Finished(Work(steps + more, run, site).sys.db, run, site, p)
              && ChildrenOf(Work(steps + more, run, site).sys.db, p) == ChildrenOf(f.sys.db, p)
    decreases |more|
  {
    hide FloorInv, Move, Finished, ChildrenOf;
    var f := Work(steps, run, site);
    if w in f.visitors && f.visitors[w].phase.Done? {
      if more == [] {
        assert steps + more == steps;
        FinishedHolds(steps, run, site);
        assert DoneIsFinished(f.sys.db, run, site, f.visitors[w]);
      } else {
        var front := more[..|more| - 1];
        FinishedPageCreatesNothing(steps, front, run, site, w);
        assert (steps + more)[..|steps + more| - 1] == steps + front;
        FloorHolds(steps + front, run, site);
        ChildrenStay(Work(steps + front, run, site), run, site, more[|more| - 1], f.visitors[w].claim.task);
      }
    }
  }
}
