/**
 A worker that nobody disturbs: its steps, one after another, are the loop of Listing.
 */
module ListLoop {
  import opened Common
  import opened CrawlPolicy
  import opened TaskModel
  import opened TaskSystem
  import opened Protocol
  import opened ListingReplay
  import opened Listing
  import opened ListPath
  import opened ListWorkers

  /** The floor after `k` steps of one worker, nobody else acting. */
  function Alone(f: Floor, run: RunId, site: Site, w: ProcId, k: nat): Floor
    decreases k
  {
    if k == 0 then f else Alone(Move(f, run, site, Advance(w, 0)), run, site, w, k - 1)
  }

  lemma {:induction false} AloneAgain(f: Floor, run: RunId, site: Site, w: ProcId, j: nat, k: nat)
    ensures Alone(f, run, site, w, j + k) == Alone(Alone(f, run, site, w, j), run, site, w, k)
    decreases j
  {
    if j == 0 {
      assert 0 + k == k;
    } else {
      AloneAgain(Move(f, run, site, Advance(w, 0)), run, site, w, j - 1, k);
      assert j + k != 0 && j + k - 1 == j - 1 + k;
    }
  }

  /** A worker at its page, with the page's document, in a sound system. */
  ghost predicate Working(f: Floor, run: RunId, w: ProcId, c: Claim, document: nat) {
    && Inv(f.sys) && w in f.visitors && f.visitors[w].claim == c && f.visitors[w].document == Some(document)
    && c.task in f.sys.db.tasks && f.sys.db.tasks[c.task].run == run
  }

  /** The page's own row says the same before and after a step. */
  lemma RowStays(f: Floor, run: RunId, site: Site, st: Step, t: TaskId)
    requires Inv(f.sys) && t in f.sys.db.tasks
    ensures var n := Move(f, run, site, st);
            && Inv(n.sys) && t in n.sys.db.tasks && n.sys.db.tasks[t].run == f.sys.db.tasks[t].run
            && n.sys.db.tasks[t].step == f.sys.db.tasks[t].step && n.sys.db.tasks[t].input == f.sys.db.tasks[t].input
  {
    hide Next, Inv, DbMove, DeedOf, VisitorsAfter;
    var deed := DeedOf(f, run, site, st);
    if deed.Some? {
      StepKeepsInv(f.sys, deed.value);
      PlaceKept(f.sys.db, Next(f.sys, deed.value).db, FootprintOf(f.sys, deed.value), t);
    }
  }

  /** The worker stands at `phase` with the tables `db`, or has given up with them. */
  ghost predicate Reaches(o: Floor, n: Floor, run: RunId, w: ProcId, db: Db, phase: Option<Phase>) {
    && Inv(n.sys) && n.sys.db == db
    && (phase.None? ==> n.visitors == o.visitors - {w})
    && (phase.Some? && w in o.visitors ==> n.visitors == o.visitors[w := o.visitors[w].(phase := phase.value)])
    && forall t :: t in o.sys.db.tasks ==>
         t in db.tasks && db.tasks[t].run == o.sys.db.tasks[t].run && db.tasks[t].step == o.sys.db.tasks[t].step
             && db.tasks[t].input == o.sys.db.tasks[t].input
  }

  /** One step, as a step of the tables and of the worker's phase. */
  lemma OneStepAlone(f: Floor, run: RunId, site: Site, w: ProcId, c: Claim, d: nat)
    requires Working(f, run, w, c, d)
    ensures var v, n := f.visitors[w], Move(f, run, site, Advance(w, 0));
            && Reaches(f, n, run, w, Carry(f.sys, Deed(f.sys.db, run, site, v, 0)).db,
                 match Response(f.sys.db, run, site, v, 0) case None => None case Some(x) => Some(x.phase))
            && (Response(f.sys.db, run, site, v, 0).Some? ==> Working(n, run, w, c, d))
  {
    hide Next, Inv, DbMove, TaskModel.CreateChild, StopAfter, TaskByUrl;
    RowStays(f, run, site, Advance(w, 0), c.task);
    forall t | t in f.sys.db.tasks
      ensures var n := Move(f, run, site, Advance(w, 0)).sys.db;
              t in n.tasks && n.tasks[t].run == f.sys.db.tasks[t].run && n.tasks[t].step == f.sys.db.tasks[t].step
                  && n.tasks[t].input == f.sys.db.tasks[t].input
    {
      RowStays(f, run, site, Advance(w, 0), t);
    }
  }

  function DetailEnd(r: Tx<Option<nat>>, todo: seq<PageUrl>): Option<Phase> {
    match r.reply
    case None => None
    case Some(n) => Some(Checking(todo, n))
  }

  /** One step after another. */
  lemma ReachesOn(f: Floor, g: Floor, n: Floor, run: RunId, w: ProcId, mid: Db, phase: Phase, db: Db,
                  end: Option<Phase>)
    requires w in f.visitors && Reaches(f, g, run, w, mid, Some(phase)) && Reaches(g, n, run, w, db, end)
    ensures Reaches(f, n, run, w, db, end)
  {
    hide Inv;
  }

  lemma AloneFirst(f: Floor, run: RunId, site: Site, w: ProcId, k: nat)
    requires k > 0
    ensures Alone(f, run, site, w, k) == Alone(Move(f, run, site, Advance(w, 0)), run, site, w, k - 1)
  {
  }

  /** Check, look-up and request together are one turn of the loop over the details. */
  lemma DetailAlone(f: Floor, run: RunId, site: Site, w: ProcId, c: Claim, d: nat, url: PageUrl, todo: seq<PageUrl>,
                    n: nat) returns (k: nat)
    requires Working(f, run, w, c, d) && f.visitors[w].phase == Checking([url] + todo, n)
    ensures var r, g := ExpandDetail(f.sys.db, run, c, url, n), Alone(f, run, site, w, k);
            Reaches(f, g, run, w, r.db, DetailEnd(r, todo)) && (r.reply.Some? ==> Working(g, run, w, c, d))
  {
    hide Inv, TaskModel.CreateChild, StopAfter, TaskByUrl, Move, Reaches, Alone;
    OneStepAlone(f, run, site, w, c, d);
    var one := Move(f, run, site, Advance(w, 0));
    assert ([url] + todo)[1..] == todo;
    if !Fenced(f.sys.db, c) {
      k := 1;
      AloneOnce(f, run, site, w);
    } else {
      AfterStep(f, one, run, w, f.sys.db, Looking(url, todo, n));
      var j := LookAlone(one, run, site, w, c, d, url, todo, n);
      k := j + 1;
      AloneFirst(f, run, site, w, k);
      var r := ExpandDetail(f.sys.db, run, c, url, n);
      ReachesOn(f, one, Alone(one, run, site, w, j), run, w, f.sys.db, Looking(url, todo, n), r.db, DetailEnd(r, todo));
    }
  }

  lemma AloneOnce(f: Floor, run: RunId, site: Site, w: ProcId)
    ensures Alone(f, run, site, w, 1) == Move(f, run, site, Advance(w, 0))
  {
  }

  lemma AfterStep(f: Floor, n: Floor, run: RunId, w: ProcId, db: Db, phase: Phase)
    requires w in f.visitors && Reaches(f, n, run, w, db, Some(phase))
    ensures w in n.visitors && n.visitors[w] == f.visitors[w].(phase := phase) && n.sys.db == db
  {
  }

  lemma LookAlone(f: Floor, run: RunId, site: Site, w: ProcId, c: Claim, d: nat, url: PageUrl, todo: seq<PageUrl>,
                  n: nat) returns (k: nat)
    requires Working(f, run, w, c, d) && f.visitors[w].phase == Looking(url, todo, n) && Fenced(f.sys.db, c)
    ensures var r, g := ExpandDetail(f.sys.db, run, c, url, n), Alone(f, run, site, w, k);
            Reaches(f, g, run, w, r.db, DetailEnd(r, todo)) && (r.reply.Some? ==> Working(g, run, w, c, d))
  {
    hide Inv, TaskModel.CreateChild, StopAfter, TaskByUrl, Move, Reaches, Alone, Fenced;
    OneStepAlone(f, run, site, w, c, d);
    var one := Move(f, run, site, Advance(w, 0));
    AloneOnce(f, run, site, w);
    k := 1;
    if TaskByUrl(f.sys.db, run, "detail", url).None? {
      AfterStep(f, one, run, w, f.sys.db, Requesting(url, todo, n));
      OneStepAlone(one, run, site, w, c, d);
      k := 2;
      AloneFirst(f, run, site, w, k);
      AloneOnce(one, run, site, w);
      var r := ExpandDetail(f.sys.db, run, c, url, n);
      ChildStep(one.sys, c, "detail", DetailInput(url));
      GivingUpChangesNothing(one.sys.db, c, "detail", DetailInput(url));
      ReachesOn(f, one, Alone(one, run, site, w, 1), run, w, f.sys.db, Requesting(url, todo, n), r.db,
                DetailEnd(r, todo));
    }
  }

  lemma GivingUpChangesNothing(db: Db, c: Claim, step: string, input: TaskInput)
    ensures var r := TaskModel.CreateChild(db, c, step, input);
            r.reply.RunInactive? || r.reply.StaleAttempt? ==> r.db == db
  {
    hide TaskModel.CreateChild;
    CreateChildShape(db, c, step, input);
  }

  /** All turns of the loop, from the i-th on. */
  lemma {:induction false} DetailsAlone(f: Floor, run: RunId, site: Site, w: ProcId, c: Claim, d: nat, start: Db,
                                        details: seq<PageUrl>, i: nat, n: nat)
    returns (k: nat)
    requires Working(f, run, w, c, d) && i <= |details| && f.visitors[w].phase == Checking(details[i..], n)
    requires ExpandDetails(start, run, c, details[..i]) == Tx(f.sys.db, Some(n))
    ensures var r, g := ExpandDetails(start, run, c, details), Alone(f, run, site, w, k);
            Reaches(f, g, run, w, r.db, DetailEnd(r, [])) && (r.reply.Some? ==> Working(g, run, w, c, d))
    decreases |details| - i
  {
    hide Inv, ExpandDetail, Reaches, Move, ExpandDetails;
    if i == |details| {
      k := 0;
      assert details[..i] == details && details[i..] == [];
      StaysReached(f, run, w);
    } else {
      DetailsLoop(start, run, c, details, i);
      assert details[i..] == [details[i]] + details[i + 1..];
      var j := DetailAlone(f, run, site, w, c, d, details[i], details[i + 1..], n);
      var r := ExpandDetail(f.sys.db, run, c, details[i], n);
      k := j;
      if r.reply.Some? {
        var mid := Alone(f, run, site, w, j);
        AfterStep(f, mid, run, w, r.db, Checking(details[i + 1..], r.reply.value));
        var m := DetailsAlone(mid, run, site, w, c, d, start, details, i + 1, r.reply.value);
        k := j + m;
        AloneAgain(f, run, site, w, j, m);
        var all := ExpandDetails(start, run, c, details);
        ReachesOn(f, mid, Alone(mid, run, site, w, m), run, w, r.db, Checking(details[i + 1..], r.reply.value), all.db,
                  DetailEnd(all, []));
      }
    }
  }

  lemma StaysReached(f: Floor, run: RunId, w: ProcId)
    requires Inv(f.sys) && w in f.visitors
    ensures Reaches(f, f, run, w, f.sys.db, Some(f.visitors[w].phase))
  {
    assert f.visitors == f.visitors[w := f.visitors[w]];
  }

  function PageEnd(reply: ExpandReply): Option<Phase> {
    match reply
    case Expanded(outcome) => Some(Done(outcome))
    case _ => None
  }

  /** After the details: stop, or check and request the next page. */
  lemma NextAlone(f: Floor, run: RunId, site: Site, w: ProcId, c: Claim, d: nat, n: nat) returns (k: nat)
    requires Working(f, run, w, c, d) && f.visitors[w].phase == LookingForNext(n) && run in f.sys.db.runs
    ensures var r, g := ExpandNext(f.sys.db, run, c, site.rules, VisitOf(f.sys.db, site, f.visitors[w]), n),
            Alone(f, run, site, w, k);
            Reaches(f, g, run, w, r.db, PageEnd(r.reply))
  {
    hide Inv, TaskModel.CreateChild, StopAfter, TaskByUrl, Move, Reaches, Alone, Fenced;
    OneStepAlone(f, run, site, w, c, d);
    var one := Move(f, run, site, Advance(w, 0));
    AloneOnce(f, run, site, w);
    k := 1;
    var visit := VisitOf(f.sys.db, site, f.visitors[w]);
    var stop, r := StopAfter(f.sys.db, run, c, site.rules, visit, n),
        ExpandNext(f.sys.db, run, c, site.rules, visit, n);
    if stop == GoOn {
      AfterStep(f, one, run, w, f.sys.db, CheckingForNext(n));
      var j := CheckAlone(one, run, site, w, c, d, n);
      k := j + 1;
      AloneFirst(f, run, site, w, k);
      ReachesOn(f, one, Alone(one, run, site, w, j), run, w, f.sys.db, CheckingForNext(n), r.db, PageEnd(r.reply));
    } else if stop == MaxPagesReached {
      AfterStep(f, one, run, w, f.sys.db, Noting(n));
      OneStepAlone(one, run, site, w, c, d);
      k := 2;
      AloneFirst(f, run, site, w, k);
      AloneOnce(one, run, site, w);
      ReachesOn(f, one, Alone(one, run, site, w, 1), run, w, f.sys.db, Noting(n), r.db, PageEnd(r.reply));
    }
  }

  lemma CheckAlone(f: Floor, run: RunId, site: Site, w: ProcId, c: Claim, d: nat, n: nat) returns (k: nat)
    requires Working(f, run, w, c, d) && f.visitors[w].phase == CheckingForNext(n)
    requires StopAfter(f.sys.db, run, c, site.rules, VisitOf(f.sys.db, site, f.visitors[w]), n) == GoOn
    ensures var r, g := ExpandNext(f.sys.db, run, c, site.rules, VisitOf(f.sys.db, site, f.visitors[w]), n),
            Alone(f, run, site, w, k);
            Reaches(f, g, run, w, r.db, PageEnd(r.reply))
  {
    hide Inv, TaskModel.CreateChild, StopAfter, TaskByUrl, Move, Reaches, Alone, Fenced;
    OneStepAlone(f, run, site, w, c, d);
    var one := Move(f, run, site, Advance(w, 0));
    AloneOnce(f, run, site, w);
    k := 1;
    if Fenced(f.sys.db, c) {
      var visit := VisitOf(f.sys.db, site, f.visitors[w]);
      var r := ExpandNext(f.sys.db, run, c, site.rules, visit, n);
      AfterStep(f, one, run, w, f.sys.db, RequestingNext(n));
      OneStepAlone(one, run, site, w, c, d);
      k := 2;
      AloneFirst(f, run, site, w, k);
      AloneOnce(one, run, site, w);
      ChildStep(one.sys, c, "list", ListInput(visit, EmptyStreak(visit, n)));
      GivingUpChangesNothing(one.sys.db, c, "list", ListInput(visit, EmptyStreak(visit, n)));
      ReachesOn(f, one, Alone(one, run, site, w, 1), run, w, f.sys.db, RequestingNext(n), r.db, PageEnd(r.reply));
    }
  }

  lemma EndAlone(f: Floor, run: RunId, site: Site, w: ProcId, c: Claim, d: nat, n: nat) returns (k: nat)
    requires Working(f, run, w, c, d) && f.visitors[w].phase == Checking([], n)
    ensures var r, g := ExpandNext(f.sys.db, run, c, site.rules, VisitOf(f.sys.db, site, f.visitors[w]), n),
            Alone(f, run, site, w, k);
            Reaches(f, g, run, w, r.db, PageEnd(r.reply))
  {
    hide Inv, ExpandNext, Move, Reaches, Alone;
    OneStepAlone(f, run, site, w, c, d);
    var one := Move(f, run, site, Advance(w, 0));
    AfterStep(f, one, run, w, f.sys.db, LookingForNext(n));
    RunKnown(f.sys, c.task);
    var j := NextAlone(one, run, site, w, c, d, n);
    k := j + 1;
    AloneFirst(f, run, site, w, k);
    var r := ExpandNext(f.sys.db, run, c, site.rules, VisitOf(f.sys.db, site, f.visitors[w]), n);
    ReachesOn(f, one, Alone(one, run, site, w, j), run, w, f.sys.db, LookingForNext(n), r.db, PageEnd(r.reply));
  }

  /**
   The steps of a worker that nobody disturbs are the loop of Listing: from the document on, it leaves the
   tables as ExpandPage does and ends with the same outcome, or gives up exactly when ExpandPage does.
   */
  lemma UndisturbedIsExpandPage(f: Floor, run: RunId, site: Site, w: ProcId, c: Claim, d: nat) returns (k: nat)
    requires Working(f, run, w, c, d) && f.visitors[w].phase == Holding
    ensures var r, g := ExpandPage(f.sys.db, run, c, site.rules, VisitOf(f.sys.db, site, f.visitors[w])),
            Alone(f, run, site, w, k);
            Reaches(f, g, run, w, r.db, PageEnd(r.reply))
  {
    hide Inv, ExpandDetails, ExpandNext, Move, Reaches, Alone;
    var visit := VisitOf(f.sys.db, site, f.visitors[w]);
    RunKnown(f.sys, c.task);
    OneStepAlone(f, run, site, w, c, d);
    var one := Move(f, run, site, Advance(w, 0));
    AloneOnce(f, run, site, w);
    k := 1;
    if IndexInRange(site.rules, visit) {
      var kept := KeptDetails(visit);
      var start := RecordTruncation(f.sys.db, run, c, visit);
      AfterStep(f, one, run, w, start, Checking(kept, 0));
      NothingDone(start, run, c, kept);
      var j := DetailsAlone(one, run, site, w, c, d, start, kept, 0, 0);
      k := j + 1;
      AloneFirst(f, run, site, w, k);
      var done := ExpandDetails(start, run, c, kept);
      ReachesOn(f, one, Alone(one, run, site, w, j), run, w, start, Checking(kept, 0), done.db, DetailEnd(done, []));
      if done.reply.Some? {
        var mid := Alone(f, run, site, w, k);
        AfterStep(f, mid, run, w, done.db, Checking([], done.reply.value));
        SameVisit(f, mid, run, site, w, done.db, Checking([], done.reply.value));
        var m := EndAlone(mid, run, site, w, c, d, done.reply.value);
        AloneAgain(f, run, site, w, k, m);
        var r := ExpandPage(f.sys.db, run, c, site.rules, visit);
        ReachesOn(f, mid, Alone(mid, run, site, w, m), run, w, done.db, Checking([], done.reply.value), r.db,
                  PageEnd(r.reply));
        k := k + m;
      }
    }
  }

  lemma NothingDone(db: Db, run: RunId, c: Claim, details: seq<PageUrl>)
    ensures details[0..] == details && ExpandDetails(db, run, c, details[..0]) == Tx(db, Some(0))
  {
  }

  lemma SameVisit(f: Floor, n: Floor, run: RunId, site: Site, w: ProcId, db: Db, phase: Phase)
    requires w in f.visitors && Reaches(f, n, run, w, db, Some(phase)) && f.visitors[w].claim.task in f.sys.db.tasks
    requires f.visitors[w].document.Some?
    ensures w in n.visitors && n.visitors[w].claim.task in db.tasks && n.visitors[w].document.Some?
    ensures VisitOf(db, site, n.visitors[w]) == VisitOf(f.sys.db, site, f.visitors[w])
  {
  }
}
