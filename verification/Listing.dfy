/**
 A worker on a list page: it extracts links, creates a task for each new detail and one for the next page.
 The steps are those of the task store; on the Book they are the ones ListingReplay reasons about.
 */
module Listing {
  import opened Common
  import opened CrawlPolicy
  import opened TaskModel
  import opened ListingReplay
  import TaskStore

  ghost predicate FirstAt(raws: seq<string>, resolve: string -> Option<PageUrl>, url: PageUrl, i: nat) {
    i < |raws| && resolve(raws[i]) == Some(url) && forall j :: 0 <= j < i ==> resolve(raws[j]) != Some(url)
  }

  /** Links of a page in order of first appearance, without repetition and without the unusable ones. */
  method ExtractDetails(raws: seq<string>, resolve: string -> Option<PageUrl>)
    returns (details: seq<PageUrl>, ghost from: seq<nat>)
    ensures forall u :: u in details <==> exists j :: 0 <= j < |raws| && resolve(raws[j]) == Some(u)
    ensures forall i, j :: 0 <= i < j < |details| ==> details[i] != details[j]
    ensures |from| == |details| && forall i, j :: 0 <= i < j < |from| ==> from[i] < from[j]
    ensures forall i :: 0 <= i < |details| ==> FirstAt(raws, resolve, details[i], from[i])
  {
    details, from := [], [];
    var seen: set<PageUrl> := {};
    for n := 0 to |raws|
      invariant forall u :: u in seen <==> u in details
      invariant forall u :: u in details <==> exists j :: 0 <= j < n && resolve(raws[j]) == Some(u)
      invariant forall i, j :: 0 <= i < j < |details| ==> details[i] != details[j]
      invariant |from| == |details| && forall i, j :: 0 <= i < j < |from| ==> from[i] < from[j]
      invariant forall i :: 0 <= i < |details| ==> from[i] < n && FirstAt(raws, resolve, details[i], from[i])
    {
      var resolved := resolve(raws[n]);
      if resolved.Some? && resolved.value !in seen {
        seen := seen + {resolved.value};
        details, from := details + [resolved.value], from + [n];
      }
    }
  }

  datatype ExpandReply = InvalidPageIndex | Abandoned | Expanded(outcome: Outcome)

  function TaskByUrl(db: Db, run: RunId, step: string, url: PageUrl): Option<TaskId> {
    FindWork(db, run, step, DetailInput(url), 0)
  }

  /** One detail: an existing task is counted if it is a child of this page, otherwise a task is requested. */
  function ExpandDetail(db: Db, run: RunId, c: Claim, url: PageUrl, count: nat): Tx<Option<nat>> {
    if !Fenced(db, c) then Tx(db, None)
    else
      var existing := TaskByUrl(db, run, "detail", url);
      if existing.Some? then Tx(db, Some(count + if db.tasks[existing.value].parent == Some(c.task) then 1 else 0))
      else
        var r := CreateChild(db, c, "detail", DetailInput(url));
        match r.reply
        case TaskCreated(_) => Tx(r.db, Some(count + 1))
        case TaskExists(_) => Tx(r.db, Some(count + 1))
        case BudgetExceeded(_) => Tx(r.db, Some(count))
        case _ => Tx(r.db, None)
  }

  function ExpandDetails(db: Db, run: RunId, c: Claim, details: seq<PageUrl>): Tx<Option<nat>> {
    if details == [] then Tx(db, Some(0))
    else
      var before := ExpandDetails(db, run, c, details[..|details| - 1]);
      if before.reply.None? then before
      else ExpandDetail(before.db, run, c, details[|details| - 1], before.reply.value)
  }

  /** Whether and why the listing ends at this page. */
  function StopAfter(db: Db, run: RunId, c: Claim, rules: ListingRules, v: Visit, newDetails: nat): Stop {
    var back := v.next == rules.entry || v.next == v.final;
    var existing := if v.next != EMPTY_URL && !back then TaskByUrl(db, run, "list", v.next) else None;
    var repeated := back || (existing.Some? && db.tasks[existing.value].parent != Some(c.task));
    ListingStop(rules, PageIndex(v), EmptyStreak(v, newDetails), v.next, repeated)
  }

  function ExpandNext(db: Db, run: RunId, c: Claim, rules: ListingRules, v: Visit, newDetails: nat): Tx<ExpandReply> {
    var streak := EmptyStreak(v, newDetails);
    var stop := StopAfter(db, run, c, rules, v, newDetails);
    if stop == GoOn then
      if !Fenced(db, c) then Tx(db, Abandoned)
      else
        var r := CreateChild(db, c, "list", ListInput(v, streak));
        match r.reply
        case TaskCreated(_) => Tx(r.db, Expanded(Outcome(newDetails, streak, GoOn)))
        case TaskExists(_) => Tx(r.db, Expanded(Outcome(newDetails, streak, GoOn)))
        case BudgetExceeded(reason) => Tx(r.db, Expanded(Outcome(newDetails, streak, Refused(reason))))
        case _ => Tx(r.db, Abandoned)
    else if stop == MaxPagesReached then
      Tx(RecordLimit(db, run, c.task, "list", v.next, MaxPages), Expanded(Outcome(newDetails, streak, stop)))
    else Tx(db, Expanded(Outcome(newDetails, streak, stop)))
  }

  function RecordTruncation(db: Db, run: RunId, c: Claim, v: Visit): Db {
    if |v.details| > MOST_DETAILS then RecordLimit(db, run, c.task, "detail", v.final, MaxDiscoveredPerPage) else db
  }

  predicate IndexInRange(rules: ListingRules, v: Visit) {
    v.onList ==> 2 <= v.input.pageIndex <= rules.maxPages
  }

  function ExpandPage(db: Db, run: RunId, c: Claim, rules: ListingRules, v: Visit): Tx<ExpandReply> {
    if !IndexInRange(rules, v) then Tx(db, InvalidPageIndex)
    else
      var done := ExpandDetails(RecordTruncation(db, run, c, v), run, c, KeptDetails(v));
      if done.reply.None? then Tx(done.db, Abandoned)
      else ExpandNext(done.db, run, c, rules, v, done.reply.value)
  }

  /** One turn of the loop: the new count, or None if the worker has to give up. */
  method TryDetail(store: TaskStore.Store, run: RunId, c: Claim, url: PageUrl, count: nat) returns (total: Option<nat>)
    modifies store
    ensures var r := ExpandDetail(old(store.View()), run, c, url, count); store.View() == r.db && total == r.reply
  {
    hide TaskModel.CreateTask, FindWork;
    if !Fenced(store.View(), c) {
      return None;
    }
    var existing := store.FirstMatch(run, "detail", DetailInput(url));
    if existing.Some? {
      return Some(count + if store.tasks[existing.value].parent == Some(c.task) then 1 else 0);
    }
    var created := store.CreateTask(store.tasks[c.task].run, Some(c.task), "detail", Workflow, DetailInput(url), 5,
                                    Some(c));
    if created.RunInactive? || created.StaleAttempt? {
      return None;
    }
    return Some(if created.BudgetExceeded? then count else count + 1);
  }

  /** The worker's loop over the task store, up to the completion of its own task. */
  method ExpandListing(store: TaskStore.Store, run: RunId, c: Claim, rules: ListingRules, v: Visit)
    returns (reply: ExpandReply)
    modifies store
    ensures var r := ExpandPage(old(store.View()), run, c, rules, v); store.View() == r.db && reply == r.reply
  {
    hide ExpandDetail, ExpandNext;
    var pageIndex := 1;
    if v.onList {
      pageIndex := v.input.pageIndex;
      if pageIndex < 2 || pageIndex > rules.maxPages {
        return InvalidPageIndex;
      }
    }
    ghost var start := RecordTruncation(store.View(), run, c, v);
    var details := v.details;
    if |details| > MOST_DETAILS {
      store.limits := store.limits + {LimitEvent(run, c.task, "detail", v.final, MaxDiscoveredPerPage)};
      details := details[..MOST_DETAILS];
    }
    var newDetails := 0;
    for i := 0 to |details|
      invariant ExpandDetails(start, run, c, details[..i]) == Tx(store.View(), Some(newDetails))
    {
      DetailsLoop(start, run, c, details, i);
      var total := TryDetail(store, run, c, details[i], newDetails);
      if total.None? {
        return Abandoned;
      }
      newDetails := total.value;
    }
    assert details[..|details|] == details;
    reply := ExpandToNext(store, run, c, rules, v, newDetails);
  }

  method ExpandToNext(store: TaskStore.Store, run: RunId, c: Claim, rules: ListingRules, v: Visit, newDetails: nat)
    returns (reply: ExpandReply)
    modifies store
    ensures var r := ExpandNext(old(store.View()), run, c, rules, v, newDetails);
            store.View() == r.db && reply == r.reply
  {
    hide TaskModel.CreateTask, FindWork;
    var streak := 0;
    if newDetails == 0 && v.onList {
      streak := v.input.emptyStreak + 1;
    } else if newDetails == 0 {
      streak := 1;
    }
    var repeated := v.next == rules.entry || v.next == v.final;
    if v.next != EMPTY_URL && !repeated {
      var existing := store.FirstMatch(run, "list", DetailInput(v.next));
      repeated := existing.Some? && store.tasks[existing.value].parent != Some(c.task);
    }
    var stop := ListingStop(rules, PageIndex(v), streak, v.next, repeated);
    if stop == GoOn {
      if !Fenced(store.View(), c) {
        return Abandoned;
      }
      var created := store.CreateTask(store.tasks[c.task].run, Some(c.task), "list", Workflow,
                                      TaskInput(v.next, PageIndex(v) + 1, streak, ""), 5, Some(c));
      if created.RunInactive? || created.StaleAttempt? {
        return Abandoned;
      }
      if created.BudgetExceeded? {
        stop := Refused(created.reason);
      }
    }
    if stop == MaxPagesReached {
      store.limits := store.limits + {LimitEvent(run, c.task, "list", v.next, MaxPages)};
    }
    reply := Expanded(Outcome(newDetails, streak, stop));
  }

  /** Once the worker has stopped, the rest of the loop does nothing. */
  lemma {:induction false} DetailsLoop(db: Db, run: RunId, c: Claim, details: seq<PageUrl>, i: nat)
    requires i < |details| && ExpandDetails(db, run, c, details[..i]).reply.Some?
    ensures details[..i + 1][..i] == details[..i] && details[..i + 1][i] == details[i]
    ensures var before := ExpandDetails(db, run, c, details[..i]);
            ExpandDetails(db, run, c, details[..i + 1]) == ExpandDetail(before.db, run, c, details[i],
                                                                        before.reply.value)
    ensures ExpandDetails(db, run, c, details[..i + 1]).reply.None? ==>
              ExpandDetails(db, run, c, details) == ExpandDetails(db, run, c, details[..i + 1])
    decreases |details|
  {
    assert details[..i + 1][..i] == details[..i];
    if i + 1 == |details| {
      assert details[..i + 1] == details;
    } else {
      var front := details[..|details| - 1];
      assert front[..i] == details[..i] && front[..i + 1] == details[..i + 1] && front[i] == details[i];
      DetailsLoop(db, run, c, front, i);
    }
  }
}
