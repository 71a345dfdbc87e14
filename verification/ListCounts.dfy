/**
 What a worker on a list page counts: however many others work on the same run, the number it reports is the
 number of details its page has, those found by earlier attempts included.
 */
module ListCounts {
  import opened Common
  import opened CrawlPolicy
  import opened TaskModel
  import opened TaskSystem
  import opened Ownership
  import opened Protocol
  import opened BudgetSafety
  import opened ListingReplay
  import opened Listing
  import opened ListPath
  import opened ListWorkers

  /** No document names a detail twice, as extraction sees to. */
  ghost predicate NoRepeats(site: Site) {
    forall d, i, j :: 0 <= i < j < |site.details(d)| ==> site.details(d)[i] != site.details(d)[j]
  }

  predicate AllDifferent(urls: seq<PageUrl>) {
    forall i, j :: 0 <= i < j < |urls| ==> urls[i] != urls[j]
  }

  /** The page's own details among those the worker is done with. */
  function DoneDetails(db: Db, run: RunId, v: Visitor): set<TaskId> {
    set t | t in DetailsOf(db, run, v.claim.task) && t in db.tasks && db.tasks[t].input.url !in Todo(v)
  }

  ghost predicate CountIsExact(db: Db, run: RunId, v: Visitor) {
    !v.phase.Holding? ==>
      && AllDifferent(Todo(v))
      && (Current(db, v.claim) ==> Count(v) == |DoneDetails(db, run, v)|)
  }

  ghost predicate AllExact(f: Floor, run: RunId) {
    forall w :: w in f.visitors ==> CountIsExact(f.sys.db, run, f.visitors[w])
  }

  lemma OthersLeaveExact(s: Sys, a: Action, run: RunId, site: Site, v: Visitor)
    requires Tables(s, run, site) && Respects(s, a, run, site) && Foreign(a, v.claim) && Seated(s.db, run, site, v)
    requires CountIsExact(s.db, run, v)
    ensures CountIsExact(Next(s, a).db, run, v)
  {
    hide Next, Inv, BudgetInv, DbMove, Graph, Disciplined, ReplacesDocument, Current, OnCourse;
    var n := Next(s, a).db;
    if Current(n, v.claim) {
      CurrentBefore(s, a, run, v.claim);
      StepKeepsPlaces(s, a, run);
      forall t | t in n.tasks && n.tasks[t].run == run && n.tasks[t].step == "detail" ensures t in s.db.tasks {
        NoForeignDetail(s, a, run, site, v.claim, t);
      }
      assert DoneDetails(n, run, v) == DoneDetails(s.db, run, v);
    }
  }

  /** A detail more that is done: at most one task of the page has its address. */
  lemma OneMoreDone(db: Db, run: RunId, v: Visitor, v': Visitor, url: PageUrl, t: TaskId)
    requires Distinct(db) && v'.claim == v.claim && Todo(v) == [url] + Todo(v') && AllDifferent(Todo(v))
    requires t in DetailsOf(db, run, v.claim.task) && db.tasks[t].input.url == url
    ensures |DoneDetails(db, run, v')| == |DoneDetails(db, run, v)| + 1
  {
    forall i | 0 <= i < |Todo(v')| ensures Todo(v')[i] != url {
      assert Todo(v)[i + 1] == Todo(v')[i] && Todo(v)[0] == url;
    }
    forall u: PageUrl ensures u in Todo(v) <==> u == url || u in Todo(v') {
    }
    assert t !in DoneDetails(db, run, v) && DoneDetails(db, run, v') == DoneDetails(db, run, v) + {t};
  }

  lemma NoneMoreDone(db: Db, run: RunId, v: Visitor, v': Visitor, url: PageUrl)
    requires v'.claim == v.claim && Todo(v) == [url] + Todo(v')
    requires forall t :: t in DetailsOf(db, run, v.claim.task) ==> db.tasks[t].input.url != url
    ensures DoneDetails(db, run, v') == DoneDetails(db, run, v)
  {
    forall u: PageUrl ensures u in Todo(v) <==> u == url || u in Todo(v') {
    }
  }

  lemma TailIsDifferent(url: PageUrl, todo: seq<PageUrl>)
    requires AllDifferent([url] + todo)
    ensures AllDifferent(todo)
  {
    forall i, j | 0 <= i < j < |todo| ensures todo[i] != todo[j] {
      assert ([url] + todo)[i + 1] == todo[i] && ([url] + todo)[j + 1] == todo[j];
    }
  }

  lemma LookingIsExact(s: Sys, run: RunId, site: Site, v: Visitor, fetched: nat, v': Visitor)
    requires Tables(s, run, site) && Seated(s.db, run, site, v) && v.document.Some? && v.phase.Looking?
    requires Response(s.db, run, site, v, fetched) == Some(v') && CountIsExact(s.db, run, v)
    ensures CountIsExact(s.db, run, v')
  {
    hide Inv, BudgetInv, Graph, FindWork, Current, OnCourse;
    var url := v.phase.url;
    var found := TaskByUrl(s.db, run, "detail", url);
    if found.None? {
      assert Todo(v') == Todo(v);
    } else {
      TailIsDifferent(url, v.phase.todo);
      NoTwoAlike(s.db);
      assert s.db.tasks[found.value].input.url == url;
      if s.db.tasks[found.value].parent == Some(v.claim.task) {
        OneMoreDone(s.db, run, v, v', url, found.value);
      } else {
        NoneMoreDone(s.db, run, v, v', url);
      }
    }
  }

  lemma RequestingIsExact(s: Sys, run: RunId, site: Site, v: Visitor, fetched: nat, a: Action, v': Visitor)
    requires Tables(s, run, site) && Seated(s.db, run, site, v) && v.document.Some? && v.phase.Requesting?
    requires Deed(s.db, run, site, v, fetched) == Some(a) && Response(s.db, run, site, v, fetched) == Some(v')
    requires CountIsExact(s.db, run, v)
    ensures CountIsExact(Next(s, a).db, run, v')
  {
    hide Inv, BudgetInv, Graph, Current, TaskModel.CreateChild, ReplacesDocument, Exhaustive, Disciplined, CountIsRight,
        DoneDetails, Next;
    var n, url := Next(s, a).db, v.phase.url;
    TailIsDifferent(url, v.phase.todo);
    if Current(n, v.claim) {
      RequestIsDisciplined(s, run, site, v, fetched);
      CurrentBefore(s, a, run, v.claim);
      RequestAddsOne(s, run, v.claim, url);
      ExistingIsDetail(s.db, v.claim, url);
      StepKeepsBudget(s, a);
      NoTwoAlike(n);
      var reply := TaskModel.CreateChild(s.db, v.claim, "detail", DetailInput(url)).reply;
      SameDone(s.db, n, run, v, url);
      if reply.TaskCreated? {
        OneMoreDone(n, run, v, v', url, reply.id);
      } else {
        NoneMoreDone(n, run, v, v', url);
      }
    }
  }

  /** What the request for a detail does to the details of its page. */
  lemma RequestAddsOne(s: Sys, run: RunId, c: Claim, url: PageUrl)
    requires Inv(s) && c.task in s.db.tasks && s.db.tasks[c.task].run == run
    ensures var n, reply := Next(s, Action.CreateChild(c, "detail", DetailInput(url))).db,
            TaskModel.CreateChild(s.db, c, "detail", DetailInput(url)).reply;
            && DetailsOf(n, run, c.task) == DetailsOf(s.db, run, c.task) + (if reply.TaskCreated? then {reply.id}
                                                                            else {})
            && (forall t :: t in DetailsOf(s.db, run, c.task) ==> n.tasks[t].input == s.db.tasks[t].input)
            && (reply.TaskCreated? ==> n.tasks[reply.id].input.url == url)
  {
    hide TaskModel.CreateChild, DbInv;
    InvImpliesOrder(s);
    CreateChildShape(s.db, c, "detail", DetailInput(url));
  }

  lemma SameDone(o: Db, n: Db, run: RunId, v: Visitor, url: PageUrl)
    requires url in Todo(v)
    requires forall t ::
               t in DetailsOf(o, run, v.claim.task) ==>
                 t in DetailsOf(n, run, v.claim.task) && n.tasks[t].input == o.tasks[t].input
    requires forall t ::
               t in DetailsOf(n, run, v.claim.task) && t !in DetailsOf(o, run, v.claim.task) ==>
                 n.tasks[t].input.url == url
    ensures DoneDetails(n, run, v) == DoneDetails(o, run, v)
  {
  }

  lemma StartIsExact(s: Sys, run: RunId, site: Site, v: Visitor, v': Visitor)
    requires Tables(s, run, site) && Attached(s.db, run, v) && v.document.Some? && NoRepeats(site)
    requires v' == v.(phase := Checking(Followed(site, v.document.value), 0))
    ensures CountIsExact(s.db, run, v')
  {
    hide Inv, BudgetInv, Graph, Exhausted, HasNext;
    forall t | t in DetailsOf(s.db, run, v.claim.task) ensures s.db.tasks[t].input.url in Todo(v') {
      DetailsAreFollowed(s, run, site, v.claim.task, t);
    }
    assert DoneDetails(s.db, run, v') == {};
  }

  lemma ActorIsExact(s: Sys, run: RunId, site: Site, v: Visitor, fetched: nat, v': Visitor)
    requires Tables(s, run, site) && Seated(s.db, run, site, v) && CountIsExact(s.db, run, v) && NoRepeats(site)
    requires Response(s.db, run, site, v, fetched) == Some(v')
    ensures CountIsExact(Carry(s, Deed(s.db, run, site, v, fetched)).db, run, v')
  {
    hide Tables, Next, TaskByUrl, StopAfter, TaskModel.CreateChild, OnCourse, NoRepeats, Current, DoneDetails;
    if v.document.None? {
      return;
    }
    var deed := Deed(s.db, run, site, v, fetched);
    if v.phase.Looking? {
      LookingIsExact(s, run, site, v, fetched, v');
    } else if v.phase.Requesting? {
      RequestingIsExact(s, run, site, v, fetched, deed.value, v');
    } else if v.phase.RequestingNext? {
      NextIsExact(s, run, site, v, fetched, deed.value, v');
    } else if deed.None? {
      QuietIsExact(s, run, site, v, fetched, v');
    } else {
      RecordingIsExact(s, run, site, v, fetched, deed.value, v');
    }
  }

  lemma QuietIsExact(s: Sys, run: RunId, site: Site, v: Visitor, fetched: nat, v': Visitor)
    requires Tables(s, run, site) && Seated(s.db, run, site, v) && CountIsExact(s.db, run, v) && NoRepeats(site)
    requires v.document.Some? && !v.phase.Looking? && Deed(s.db, run, site, v, fetched).None?
    requires Response(s.db, run, site, v, fetched) == Some(v')
    ensures CountIsExact(s.db, run, v')
  {
    hide Tables, OnCourse, NoRepeats, Current, StopAfter;
    if v.phase.Holding? {
      StartIsExact(s, run, site, v, v');
    } else {
      assert Todo(v') == Todo(v) && Count(v') == Count(v);
      assert DoneDetails(s.db, run, v') == DoneDetails(s.db, run, v);
    }
  }

  lemma RecordingIsExact(s: Sys, run: RunId, site: Site, v: Visitor, fetched: nat, a: Action, v': Visitor)
    requires Tables(s, run, site) && Seated(s.db, run, site, v) && CountIsExact(s.db, run, v) && NoRepeats(site)
    requires v.document.Some? && (v.phase.Holding? || v.phase.Noting?)
    requires Deed(s.db, run, site, v, fetched) == Some(a) && Response(s.db, run, site, v, fetched) == Some(v')
    ensures CountIsExact(Next(s, a).db, run, v')
  {
    hide Tables, OnCourse, NoRepeats, Current, Next;
    if v.phase.Holding? {
      StartIsExact(s, run, site, v, v');
      StartingSeats(s, run, site, v, v');
    } else {
      assert DoneDetails(s.db, run, v') == DoneDetails(s.db, run, v);
      NotedSeats(s.db, run, site, v, v');
    }
    RequestIsDisciplined(s, run, site, v, fetched);
    OthersLeaveExact(s, a, run, site, v');
  }

  lemma NotedSeats(db: Db, run: RunId, site: Site, v: Visitor, v': Visitor)
    requires Seated(db, run, site, v) && v.phase.Noting? && v' == v.(phase := v'.phase) && v'.phase.Done?
    requires Count(v') == Count(v)
    ensures Seated(db, run, site, v')
  {
    hide Current, Exhausted;
    assert Todo(v) == Todo(v');
  }

  lemma NextIsExact(s: Sys, run: RunId, site: Site, v: Visitor, fetched: nat, a: Action, v': Visitor)
    requires Tables(s, run, site) && Seated(s.db, run, site, v) && CountIsExact(s.db, run, v)
    requires v.document.Some? && v.phase.RequestingNext?
    requires Deed(s.db, run, site, v, fetched) == Some(a) && Response(s.db, run, site, v, fetched) == Some(v')
    ensures CountIsExact(Next(s, a).db, run, v')
  {
    hide Inv, BudgetInv, Graph, Current, TaskModel.CreateChild, Exhaustive, ReplacesDocument, Disciplined, Next,
        CountIsRight;
    if Current(Next(s, a).db, v.claim) {
      RequestIsDisciplined(s, run, site, v, fetched);
      CurrentBefore(s, a, run, v.claim);
      NextIsNoDetail(s, v.claim, run, a.input);
      assert DoneDetails(Next(s, a).db, run, v') == DoneDetails(s.db, run, v);
    }
  }

  lemma ExactStep(f: Floor, run: RunId, site: Site, st: Step)
    requires FloorInv(f, run, site) && AllExact(f, run) && NoRepeats(site)
    ensures AllExact(Move(f, run, site, st), run)
  {
    hide Tables, Next, Seated, Respects, DeedOf, VisitorsAfter, CountIsExact, NoRepeats, Apart;
    var n := Move(f, run, site, st);
    forall w | w in n.visitors ensures CountIsExact(n.sys.db, run, n.visitors[w]) {
      VisitorIsExact(f, run, site, st, w);
    }
  }

  lemma VisitorIsExact(f: Floor, run: RunId, site: Site, st: Step, w: ProcId)
    requires FloorInv(f, run, site) && AllExact(f, run) && NoRepeats(site) && w in Move(f, run, site, st).visitors
    ensures CountIsExact(Move(f, run, site, st).sys.db, run, Move(f, run, site, st).visitors[w])
  {
    hide Tables, Next, OnCourse, Apart, Deed, Response, TaskModel.ClaimTask, Fenced, MayWrite, DoneDetails, NoRepeats,
        Respects, Foreign;
    if st.Advance? && st.w == w {
      ActorIsExact(f.sys, run, site, f.visitors[w], st.fetched, Move(f, run, site, st).visitors[w]);
    } else if w in f.visitors && DeedOf(f, run, site, st).Some? {
      DeedRespects(f, run, site, st);
      DeedIsForeign(f, run, site, st, w);
      OthersLeaveExact(f.sys, DeedOf(f, run, site, st).value, run, site, f.visitors[w]);
    }
  }

  lemma {:induction false} ExactHolds(steps: seq<Step>, run: RunId, site: Site)
    requires NoRepeats(site)
    ensures AllExact(Work(steps, run, site), run)
    decreases |steps|
  {
    hide FloorInv, Move, NoRepeats, CountIsExact;
    if steps != [] {
      var front := steps[..|steps| - 1];
      ExactHolds(front, run, site);
      FloorHolds(front, run, site);
      ExactStep(Work(front, run, site), run, site, steps[|steps| - 1]);
    }
  }

  /**
   Whatever else happens, a worker that is through with its details and still holds a page without a next
   one has counted exactly the details of that page, the ones of earlier attempts included.
   */
  lemma CountsAreDetails(steps: seq<Step>, run: RunId, site: Site, w: ProcId)
    requires NoRepeats(site)
    ensures var f := Work(steps, run, site);
            w in f.visitors && DetailsAreDone(f.visitors[w]) && Current(f.sys.db, f.visitors[w].claim) ==>
              && Count(f.visitors[w]) == |DetailsOf(f.sys.db, run, f.visitors[w].claim.task)|
              && AllExhausted(f.sys.db, site, f.visitors[w].claim.task)
  {
    hide Work, Current, NoRepeats, Exhausted, Tables;
    FloorHolds(steps, run, site);
    ExactHolds(steps, run, site);
    var f := Work(steps, run, site);
    if w in f.visitors && DetailsAreDone(f.visitors[w]) && Current(f.sys.db, f.visitors[w].claim) {
      var v := f.visitors[w];
      assert Seated(f.sys.db, run, site, v) && CountIsExact(f.sys.db, run, v);
      assert DoneDetails(f.sys.db, run, v) == DetailsOf(f.sys.db, run, v.claim.task);
    }
  }
}
