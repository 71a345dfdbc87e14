/**
 What one list page does to the graph of its run, and why it may be done twice.  A worker that dies while
 it creates the children of a page leaves a prefix of them; the next attempt starts over on the stored
 document.  The Book is what a list page can see of its run: the tasks by step and address and the
 recorded limits, without ids, leases and times.
 */
module ListingReplay {
  import opened Common
  import opened CrawlPolicy
  import opened TaskModel

  datatype Kid = Kid(step: string, input: TaskInput, parent: Option<TaskId>, depth: int)

  datatype Book = Book(kids: set<Kid>, limits: set<LimitEvent>)

  /** The task that shows the list page, and the budget its children count against. */
  datatype Page = Page(run: RunId, task: TaskId, depth: int, budget: Budget)

  /** How far the definition lets a listing go. */
  datatype ListingRules = ListingRules(maxPages: int, maxEmptyPages: int, entry: PageUrl)

  /** What was extracted from the stored document, and the role in which the page is visited. */
  datatype Visit = Visit(onList: bool, input: TaskInput, final: PageUrl, details: seq<PageUrl>, next: PageUrl)

  datatype Stop =
    GoOn | NoNextPage | RepeatedNextPage | MaxPagesReached | ConsecutiveEmptyPages | Refused(reason: Reason)

  datatype Outcome = Outcome(newDetails: nat, emptyStreak: int, stop: Stop)

  const MOST_DETAILS := 1000

  predicate Known(b: Book, step: string, url: PageUrl) {
    exists k :: k in b.kids && k.step == step && k.input.url == url
  }

  predicate Mine(p: Page, b: Book, step: string, url: PageUrl) {
    exists k :: k in b.kids && k.step == step && k.input.url == url && k.parent == Some(p.task)
  }

  /** A step and an address name at most one task. */
  ghost predicate Unique(b: Book) {
    forall j, k :: j in b.kids && k in b.kids && j.step == k.step && j.input.url == k.input.url ==> j == k
  }

  function MyDetails(p: Page, b: Book): set<Kid> {
    set k | k in b.kids && k.step == "detail" && k.parent == Some(p.task)
  }

  /** The budget's answer to one more child before the deadline. */
  function Refusal(p: Page, b: Book, step: string, url: PageUrl): Option<Reason> {
    if !Admits(p.budget, url) then Some(AllowedDomains)
    else if p.depth + 1 > p.budget.maxDepth then Some(MaxDepth)
    else if |b.kids| >= p.budget.maxTasks then Some(MaxTasks)
    else if step == "detail" && |MyDetails(p, b)| >= p.budget.maxDiscoveredPerPage then Some(MaxDiscoveredPerPage)
    else None
  }

  function Note(p: Page, b: Book, step: string, url: PageUrl, reason: Reason): Book {
    b.(limits := b.limits + {LimitEvent(p.run, p.task, step, url, reason)})
  }

  function AddChild(p: Page, b: Book, step: string, input: TaskInput): Book {
    if Known(b, step, input.url) then b
    else match Refusal(p, b, step, input.url)
      case Some(r) => Note(p, b, step, input.url, r)
      case None => b.(kids := b.kids + {Kid(step, input, Some(p.task), p.depth + 1)})
  }

  function DetailInput(url: PageUrl): TaskInput {
    TaskInput(url, 0, 0, "")
  }

  /** The detail belongs to this page already or will now. */
  predicate Counts(p: Page, b: Book, url: PageUrl) {
    Mine(p, b, "detail", url) || (!Known(b, "detail", url) && Refusal(p, b, "detail", url).None?)
  }

  /** The loop over the details: the book it leaves and how many details count as found by this page. */
  function AddDetails(p: Page, b: Book, details: seq<PageUrl>): (Book, nat) {
    if details == [] then (b, 0)
    else
      var before := AddDetails(p, b, details[..|details| - 1]);
      var url := details[|details| - 1];
      (AddChild(p, before.0, "detail", DetailInput(url)),
       before.1 + if Counts(p, before.0, url) then 1 else 0)
  }

  function ListingStop(rules: ListingRules, pageIndex: int, emptyStreak: int, next: PageUrl, repeated: bool): Stop {
    if next == EMPTY_URL then NoNextPage
    else if repeated then RepeatedNextPage
    else if pageIndex >= rules.maxPages then MaxPagesReached
    else if emptyStreak >= rules.maxEmptyPages then ConsecutiveEmptyPages
    else GoOn
  }

  /** Why a listing ends: the first reason in this order, and only that. */
  lemma StopIff(rules: ListingRules, pageIndex: int, emptyStreak: int, next: PageUrl, repeated: bool)
    ensures var stop := ListingStop(rules, pageIndex, emptyStreak, next, repeated);
            var goesOn := next != EMPTY_URL && !repeated;
            && (stop == NoNextPage <==> next == EMPTY_URL)
            && (stop == RepeatedNextPage <==> next != EMPTY_URL && repeated)
            && (stop == MaxPagesReached <==> goesOn && pageIndex >= rules.maxPages)
            && (stop == ConsecutiveEmptyPages <==>
                  goesOn && pageIndex < rules.maxPages && emptyStreak >= rules.maxEmptyPages)
            && (stop == GoOn <==> goesOn && pageIndex < rules.maxPages && emptyStreak < rules.maxEmptyPages)
  {
  }

  function PageIndex(v: Visit): int {
    if v.onList then v.input.pageIndex else 1
  }

  function EmptyStreak(v: Visit, newDetails: nat): int {
    if newDetails > 0 then 0 else if v.onList then v.input.emptyStreak + 1 else 1
  }

  /** The next link leads back: to the entry, to this very page, or to a list page found from elsewhere. */
  predicate Repeats(p: Page, rules: ListingRules, b: Book, v: Visit) {
    || v.next == rules.entry || v.next == v.final
    || (v.next != EMPTY_URL && Known(b, "list", v.next) && !Mine(p, b, "list", v.next))
  }

  function Truncated(p: Page, b: Book, v: Visit): Book {
    if |v.details| > MOST_DETAILS then Note(p, b, "detail", v.final, MaxDiscoveredPerPage) else b
  }

  function KeptDetails(v: Visit): seq<PageUrl> {
    if |v.details| > MOST_DETAILS then v.details[..MOST_DETAILS] else v.details
  }

  /** A page is visited for its first thousand details, and its streak of empty pages counts it if it brings none. */
  lemma VisitCounts(v: Visit, newDetails: nat)
    ensures KeptDetails(v) == if |v.details| <= 1000 then v.details else v.details[..1000]
    ensures PageIndex(v) == if v.onList then v.input.pageIndex else 1
    ensures EmptyStreak(v, newDetails) == (if newDetails > 0 then 0
                                           else 1 + if v.onList then v.input.emptyStreak else 0)
  {
  }

  function ListInput(v: Visit, emptyStreak: int): TaskInput {
    TaskInput(v.next, PageIndex(v) + 1, emptyStreak, "")
  }

  /** The second half of the expansion: the next page, once the details are done. */
  function AddNext(p: Page, rules: ListingRules, b: Book, v: Visit, newDetails: nat): (Book, Outcome) {
    var streak := EmptyStreak(v, newDetails);
    var stop := ListingStop(rules, PageIndex(v), streak, v.next, Repeats(p, rules, b, v));
    if stop == GoOn && !Known(b, "list", v.next) && Refusal(p, b, "list", v.next).Some? then
      (AddChild(p, b, "list", ListInput(v, streak)),
       Outcome(newDetails, streak, Refused(Refusal(p, b, "list", v.next).value)))
    else if stop == GoOn then (AddChild(p, b, "list", ListInput(v, streak)), Outcome(newDetails, streak, GoOn))
    else if stop == MaxPagesReached then (Note(p, b, "list", v.next, MaxPages), Outcome(newDetails, streak, stop))
    else (b, Outcome(newDetails, streak, stop))
  }

  function DetailsDone(p: Page, b: Book, v: Visit): (Book, nat) {
    AddDetails(p, Truncated(p, b, v), KeptDetails(v))
  }

  function Expand(p: Page, rules: ListingRules, b: Book, v: Visit): (Book, Outcome) {
    var done := DetailsDone(p, b, v);
    AddNext(p, rules, done.0, v, done.1)
  }

  /** The book a worker leaves that dies after `k` details. */
  function Interrupted(p: Page, b: Book, v: Visit, k: nat): Book
    requires k <= |KeptDetails(v)|
  {
    AddDetails(p, Truncated(p, b, v), KeptDetails(v)[..k]).0
  }

  // ----- One child ---------------------------------------------------------------------------------

  /** Asking again for this detail changes nothing: it exists, or the refusal is on record and would be the same. */
  ghost predicate Settled(p: Page, b: Book, url: PageUrl) {
    || Known(b, "detail", url)
    || (Refusal(p, b, "detail", url).Some?
        && LimitEvent(p.run, p.task, "detail", url, Refusal(p, b, "detail", url).value) in b.limits)
  }

  lemma AddSettles(p: Page, b: Book, url: PageUrl)
    ensures Settled(p, AddChild(p, b, "detail", DetailInput(url)), url)
  {
    var n := AddChild(p, b, "detail", DetailInput(url));
    if !Known(b, "detail", url) && Refusal(p, b, "detail", url).None? {
      assert Kid("detail", DetailInput(url), Some(p.task), p.depth + 1) in n.kids;
    } else if !Known(b, "detail", url) {
      assert MyDetails(p, n) == MyDetails(p, b);
    }
  }

  lemma AddSettledIsIdle(p: Page, b: Book, url: PageUrl)
    requires Settled(p, b, url)
    ensures AddChild(p, b, "detail", DetailInput(url)) == b
  {
    if !Known(b, "detail", url) {
      assert b.limits + {LimitEvent(p.run, p.task, "detail", url, Refusal(p, b, "detail", url).value)} == b.limits;
    }
  }

  /** A refused detail stays refused for the same reason while further details are added. */
  lemma SettledStays(p: Page, b: Book, url: PageUrl, other: PageUrl)
    requires Settled(p, b, url)
    ensures Settled(p, AddChild(p, b, "detail", DetailInput(other)), url)
  {
    var n := AddChild(p, b, "detail", DetailInput(other));
    AddCounts(p, b, other);
    assert b.kids <= n.kids && b.limits <= n.limits;
    if !Known(b, "detail", url) && !Known(n, "detail", url) {
      assert Refusal(p, n, "detail", url) == Refusal(p, b, "detail", url);
    }
  }

  lemma AddCounts(p: Page, b: Book, other: PageUrl)
    ensures var n := AddChild(p, b, "detail", DetailInput(other));
            && |b.kids| <= |n.kids|
            && (if n.kids == b.kids then MyDetails(p, n) == MyDetails(p, b)
                else Refusal(p, b, "detail", other).None? && |MyDetails(p, n)| == |MyDetails(p, b)| + 1)
  {
    var n := AddChild(p, b, "detail", DetailInput(other));
    if n.kids == b.kids {
      assert MyDetails(p, n) == MyDetails(p, b);
    } else {
      var kid := Kid("detail", DetailInput(other), Some(p.task), p.depth + 1);
      assert n.kids == b.kids + {kid} && kid !in b.kids;
      assert MyDetails(p, n) == MyDetails(p, b) + {kid};
    }
  }

  lemma {:induction false} DetailsSettle(p: Page, b: Book, details: seq<PageUrl>)
    ensures forall i :: 0 <= i < |details| ==> Settled(p, AddDetails(p, b, details).0, details[i])
  {
    if details != [] {
      var front, last := details[..|details| - 1], details[|details| - 1];
      DetailsSettle(p, b, front);
      var before := AddDetails(p, b, front).0;
      forall i | 0 <= i < |details| ensures Settled(p, AddDetails(p, b, details).0, details[i]) {
        if i < |front| {
          assert details[i] == front[i];
          SettledStays(p, before, details[i], last);
        } else {
          AddSettles(p, before, last);
        }
      }
    }
  }

  lemma {:induction false} SettledDetailsAreIdle(p: Page, b: Book, details: seq<PageUrl>)
    requires forall i :: 0 <= i < |details| ==> Settled(p, b, details[i])
    ensures AddDetails(p, b, details).0 == b
  {
    if details != [] {
      SettledDetailsAreIdle(p, b, details[..|details| - 1]);
      AddSettledIsIdle(p, b, details[|details| - 1]);
    }
  }

  lemma {:induction false} AddDetailsConcat(p: Page, b: Book, first: seq<PageUrl>, rest: seq<PageUrl>)
    ensures AddDetails(p, b, first + rest).0 == AddDetails(p, AddDetails(p, b, first).0, rest).0
    decreases |rest|
  {
    if rest == [] {
      assert first + rest == first;
    } else {
      assert (first + rest)[..|first + rest| - 1] == first + rest[..|rest| - 1];
      AddDetailsConcat(p, b, first, rest[..|rest| - 1]);
    }
  }

  /** Starting over after any prefix of the details leads to the same book. */
  lemma DetailsRestart(p: Page, b: Book, details: seq<PageUrl>, k: nat)
    requires k <= |details|
    ensures AddDetails(p, AddDetails(p, b, details[..k]).0, details).0 == AddDetails(p, b, details).0
  {
    var prefix, rest := details[..k], details[k..];
    var stopped := AddDetails(p, b, prefix).0;
    assert details == prefix + rest;
    DetailsSettle(p, b, prefix);
    SettledDetailsAreIdle(p, stopped, prefix);
    AddDetailsConcat(p, stopped, prefix, rest);
    AddDetailsConcat(p, b, prefix, rest);
  }

  // ----- Counting the details of a page ---------------------------------------------------------------

  function CountMine(p: Page, b: Book, details: seq<PageUrl>): nat {
    if details == [] then 0
    else CountMine(p, b, details[..|details| - 1]) + if Mine(p, b, "detail", details[|details| - 1]) then 1 else 0
  }

  lemma UniqueStays(p: Page, b: Book, step: string, input: TaskInput)
    requires Unique(b)
    ensures Unique(AddChild(p, b, step, input))
  {
  }

  lemma {:induction false} UniqueAfterDetails(p: Page, b: Book, details: seq<PageUrl>)
    requires Unique(b)
    ensures Unique(AddDetails(p, b, details).0)
  {
    if details != [] {
      UniqueAfterDetails(p, b, details[..|details| - 1]);
      UniqueStays(p, AddDetails(p, b, details[..|details| - 1]).0, "detail", DetailInput(details[|details| - 1]));
    }
  }

  /** Settled details keep their owner, or keep having none. */
  lemma OwnerStays(p: Page, b: Book, url: PageUrl, other: PageUrl)
    requires Unique(b) && Settled(p, b, url)
    ensures Mine(p, AddChild(p, b, "detail", DetailInput(other)), "detail", url) <==> Mine(p, b, "detail", url)
  {
  }

  lemma {:induction false} CountStays(p: Page, b: Book, details: seq<PageUrl>, other: PageUrl)
    requires Unique(b) && forall i :: 0 <= i < |details| ==> Settled(p, b, details[i])
    ensures CountMine(p, AddChild(p, b, "detail", DetailInput(other)), details) == CountMine(p, b, details)
  {
    if details != [] {
      CountStays(p, b, details[..|details| - 1], other);
      OwnerStays(p, b, details[|details| - 1], other);
    }
  }

  /** The counter of the loop is the number of details that are children of this page when it ends. */
  lemma {:induction false} NewDetailsAreMine(p: Page, b: Book, details: seq<PageUrl>)
    requires Unique(b)
    ensures AddDetails(p, b, details).1 == CountMine(p, AddDetails(p, b, details).0, details)
  {
    if details != [] {
      var front, url := details[..|details| - 1], details[|details| - 1];
      var before := AddDetails(p, b, front).0;
      NewDetailsAreMine(p, b, front);
      UniqueAfterDetails(p, b, front);
      DetailsSettle(p, b, front);
      CountStays(p, before, front, url);
      AddedIsMine(p, before, url);
    }
  }

  lemma AddedIsMine(p: Page, b: Book, url: PageUrl)
    requires Unique(b)
    ensures Mine(p, AddChild(p, b, "detail", DetailInput(url)), "detail", url) <==>
              Counts(p, b, url)
  {
    if !Known(b, "detail", url) && Refusal(p, b, "detail", url).None? {
      var kid := Kid("detail", DetailInput(url), Some(p.task), p.depth + 1);
      assert kid in AddChild(p, b, "detail", DetailInput(url)).kids;
    }
  }

  // ----- Crash and replay ---------------------------------------------------------------------------

  lemma TruncatedStays(p: Page, b: Book, v: Visit, details: seq<PageUrl>)
    ensures Truncated(p, AddDetails(p, Truncated(p, b, v), details).0, v)
            == AddDetails(p, Truncated(p, b, v), details).0
  {
    LimitsOnlyGrow(p, Truncated(p, b, v), details);
  }

  lemma {:induction false} LimitsOnlyGrow(p: Page, b: Book, details: seq<PageUrl>)
    ensures b.limits <= AddDetails(p, b, details).0.limits
  {
    if details != [] {
      LimitsOnlyGrow(p, b, details[..|details| - 1]);
    }
  }

  lemma {:induction false} UniqueInterrupted(p: Page, b: Book, v: Visit, k: nat)
    requires Unique(b) && k <= |KeptDetails(v)|
    ensures Unique(Interrupted(p, b, v, k))
  {
    UniqueAfterDetails(p, Truncated(p, b, v), KeptDetails(v)[..k]);
  }

  /**
   A worker dies after any number of the page's details; the next attempt, on the same document, ends with
   the same tasks, limits, counts and stop reason as if nothing had happened.
   */
  lemma CrashAmongDetailsIsMadeUp(p: Page, rules: ListingRules, b: Book, v: Visit, k: nat)
    requires Unique(b) && k <= |KeptDetails(v)|
    ensures Expand(p, rules, Interrupted(p, b, v, k), v) == Expand(p, rules, b, v)
  {
    var stopped := Interrupted(p, b, v, k);
    TruncatedStays(p, b, v, KeptDetails(v)[..k]);
    DetailsRestart(p, Truncated(p, b, v), KeptDetails(v), k);
    UniqueInterrupted(p, b, v, k);
    NewDetailsAreMine(p, stopped, KeptDetails(v));
    NewDetailsAreMine(p, Truncated(p, b, v), KeptDetails(v));
    assert DetailsDone(p, stopped, v) == DetailsDone(p, b, v);
  }

  /** Details that were refused because the page already has all it may have. */
  ghost predicate Overflows(p: Page, b: Book, url: PageUrl) {
    !Known(b, "detail", url) && Refusal(p, b, "detail", url) == Some(MaxDiscoveredPerPage)
  }

  /** The expansion creates the next page's task. */
  ghost predicate CreatesNext(p: Page, rules: ListingRules, b: Book, v: Visit) {
    Expand(p, rules, b, v).0.kids != DetailsDone(p, b, v).0.kids
  }

  /**
   The one case in which the crash shows: the next page took the last task slot of the run, so a detail that
   had been refused for the page is now refused for the run, and that refusal is not on record yet.
   */
  ghost predicate ShowsCrash(p: Page, rules: ListingRules, b: Book, v: Visit) {
    var done, full := DetailsDone(p, b, v).0, Expand(p, rules, b, v).0;
    CreatesNext(p, rules, b, v) && |full.kids| >= p.budget.maxTasks
    && exists i :: 0 <= i < |KeptDetails(v)| && Overflows(p, done, KeptDetails(v)[i])
                   && LimitEvent(p.run, p.task, "detail", KeptDetails(v)[i], MaxTasks) !in full.limits
  }

  /** The event says that the page's i-th detail, one beyond its allowance, was refused for lack of tasks. */
  ghost predicate IsOverflow(p: Page, b: Book, v: Visit, e: LimitEvent, i: nat) {
    && i < |KeptDetails(v)| && Overflows(p, DetailsDone(p, b, v).0, KeptDetails(v)[i])
    && e == LimitEvent(p.run, p.task, "detail", KeptDetails(v)[i], MaxTasks)
  }

  /** What the second half adds to the book. */
  lemma NextAdds(p: Page, rules: ListingRules, b: Book, v: Visit, newDetails: nat)
    ensures var n := AddNext(p, rules, b, v, newDetails).0;
            && b.limits <= n.limits && MyDetails(p, n) == MyDetails(p, b)
            && (n.kids == b.kids || (!Known(b, "list", v.next) && n.limits == b.limits
                  && exists input: TaskInput ::
                       input.url == v.next && n.kids == b.kids + {Kid("list", input, Some(p.task), p.depth + 1)}))
  {
    var n := AddNext(p, rules, b, v, newDetails).0;
    if n.kids != b.kids {
      var input := ListInput(v, EmptyStreak(v, newDetails));
      assert n.kids == b.kids + {Kid("list", input, Some(p.task), p.depth + 1)};
    }
  }

  /** The second half done again on the same kids: nothing new, same answer. */
  lemma NextAgain(p: Page, rules: ListingRules, b: Book, again: Book, v: Visit, newDetails: nat)
    requires Unique(b)
    requires var n := AddNext(p, rules, b, v, newDetails).0; again.kids == n.kids && n.limits <= again.limits
    ensures AddNext(p, rules, again, v, newDetails) == (again, AddNext(p, rules, b, v, newDetails).1)
  {
    var n := AddNext(p, rules, b, v, newDetails).0;
    if n.kids != b.kids {
      var kid := Kid("list", ListInput(v, EmptyStreak(v, newDetails)), Some(p.task), p.depth + 1);
      assert kid in again.kids;
      assert Known(again, "list", v.next) && Mine(p, again, "list", v.next);
    } else {
      assert MyDetails(p, again) == MyDetails(p, b);
      NextEvents(p, rules, b, again, v, newDetails);
    }
  }

  /** When nothing stops the listing and no task is added, the next page has one. */
  lemma NoNextMeansKnown(p: Page, rules: ListingRules, b: Book, v: Visit, newDetails: nat)
    requires ListingStop(rules, PageIndex(v), EmptyStreak(v, newDetails), v.next, Repeats(p, rules, b, v)) == GoOn
    requires Refusal(p, b, "list", v.next).None?
    ensures AddNext(p, rules, b, v, newDetails).0.kids == b.kids ==> Known(b, "list", v.next)
  {
    var kid := Kid("list", ListInput(v, EmptyStreak(v, newDetails)), Some(p.task), p.depth + 1);
    assert kid in b.kids ==> Known(b, "list", v.next);
    assert !Known(b, "list", v.next) ==> AddNext(p, rules, b, v, newDetails).0.kids == b.kids + {kid};
  }

  lemma NextEvents(p: Page, rules: ListingRules, b: Book, again: Book, v: Visit, newDetails: nat)
    requires var n := AddNext(p, rules, b, v, newDetails).0;
             n.kids == b.kids && again.kids == n.kids && n.limits <= again.limits
    ensures AddNext(p, rules, again, v, newDetails) == (again, AddNext(p, rules, b, v, newDetails).1)
  {
    assert MyDetails(p, again) == MyDetails(p, b);
    var streak := EmptyStreak(v, newDetails);
    var stop := ListingStop(rules, PageIndex(v), streak, v.next, Repeats(p, rules, b, v));
    assert Repeats(p, rules, again, v) <==> Repeats(p, rules, b, v);
    if stop == GoOn && Refusal(p, b, "list", v.next).None? {
      NoNextMeansKnown(p, rules, b, v, newDetails);
    } else if stop == GoOn && !Known(b, "list", v.next) {
      assert again.limits + {LimitEvent(p.run, p.task, "list", v.next, Refusal(p, b, "list", v.next).value)}
          == again.limits;
    } else if stop == MaxPagesReached {
      assert again.limits + {LimitEvent(p.run, p.task, "list", v.next, MaxPages)} == again.limits;
    }
  }

  /** Details done again after the next page exists: no new task, and new refusals only for overflowing details. */
  lemma {:induction false} DetailsAgain(p: Page, b: Book, full: Book, details: seq<PageUrl>)
    requires forall i :: 0 <= i < |details| ==> Settled(p, b, details[i])
    requires MyDetails(p, full) == MyDetails(p, b) && b.limits <= full.limits
    requires |full.kids| == |b.kids| || |full.kids| == |b.kids| + 1
    requires forall url: PageUrl :: Known(full, "detail", url) <==> Known(b, "detail", url)
    ensures var n := AddDetails(p, full, details).0;
            && n.kids == full.kids && full.limits <= n.limits
            && forall e :: e in n.limits && e !in full.limits ==>
                 exists i :: 0 <= i < |details| && Overflows(p, b, details[i]) && |full.kids| >= p.budget.maxTasks
                   && |full.kids| != |b.kids| && e == LimitEvent(p.run, p.task, "detail", details[i], MaxTasks)
    ensures |full.kids| != |b.kids| && |full.kids| >= p.budget.maxTasks ==>
              forall i :: 0 <= i < |details| && Overflows(p, b, details[i]) ==>
                LimitEvent(p.run, p.task, "detail", details[i], MaxTasks) in AddDetails(p, full, details).0.limits
  {
    if details != [] {
      var front, url := details[..|details| - 1], details[|details| - 1];
      assert forall i :: 0 <= i < |front| ==> front[i] == details[i];
      DetailsAgain(p, b, full, front);
      var before := AddDetails(p, full, front).0;
      assert Known(before, "detail", url) <==> Known(full, "detail", url);
      assert MyDetails(p, before) == MyDetails(p, full);
      OneDetailAgain(p, b, before, url);
    }
  }

  lemma OneDetailAgain(p: Page, b: Book, before: Book, url: PageUrl)
    requires Settled(p, b, url) && b.limits <= before.limits && MyDetails(p, before) == MyDetails(p, b)
    requires |before.kids| == |b.kids| || |before.kids| == |b.kids| + 1
    requires Known(before, "detail", url) <==> Known(b, "detail", url)
    ensures var n := AddChild(p, before, "detail", DetailInput(url));
            && n.kids == before.kids
            && n.limits == if Overflows(p, b, url) && |before.kids| >= p.budget.maxTasks && |before.kids| != |b.kids|
                           then before.limits + {LimitEvent(p.run, p.task, "detail", url, MaxTasks)} else before.limits
  {
    if !Known(before, "detail", url) {
      var r := Refusal(p, before, "detail", url).value;
      if r == Refusal(p, b, "detail", url).value {
        assert before.limits + {LimitEvent(p.run, p.task, "detail", url, r)} == before.limits;
      }
    }
  }

  lemma {:induction false} CountIsOfKids(p: Page, b: Book, c: Book, details: seq<PageUrl>)
    requires MyDetails(p, b) == MyDetails(p, c)
    ensures CountMine(p, b, details) == CountMine(p, c, details)
  {
    if details != [] {
      CountIsOfKids(p, b, c, details[..|details| - 1]);
      SameMine(p, b, c, details[|details| - 1]);
    }
  }

  lemma SameMine(p: Page, b: Book, c: Book, url: PageUrl)
    requires MyDetails(p, b) == MyDetails(p, c)
    ensures Mine(p, b, "detail", url) <==> Mine(p, c, "detail", url)
  {
    assert forall k :: k in MyDetails(p, b) <==> k in b.kids && k.step == "detail" && k.parent == Some(p.task);
    assert forall k :: k in MyDetails(p, c) <==> k in c.kids && k.step == "detail" && k.parent == Some(p.task);
  }

  lemma NextKeepsDetailsKnown(p: Page, rules: ListingRules, b: Book, v: Visit, newDetails: nat)
    ensures var n := AddNext(p, rules, b, v, newDetails).0;
            && (forall url: PageUrl :: Known(n, "detail", url) <==> Known(b, "detail", url))
            && (|n.kids| == |b.kids| <==> n.kids == b.kids) && (|n.kids| == |b.kids| || |n.kids| == |b.kids| + 1)
  {
    NextAdds(p, rules, b, v, newDetails);
    var n := AddNext(p, rules, b, v, newDetails).0;
    if n.kids != b.kids {
      var input: TaskInput :| input.url == v.next && n.kids == b.kids + {Kid("list", input, Some(p.task), p.depth + 1)};
      assert Kid("list", input, Some(p.task), p.depth + 1) !in b.kids;
    }
  }

  /**
   A worker dies after it has created everything; the next attempt creates no task and reaches the same
   count, streak and stop reason.  The limits are the same too, except exactly when the crash shows: then each
   detail beyond the allowance of the page is refused once more, for lack of tasks.
   */
  lemma CrashAfterNextPage(p: Page, rules: ListingRules, b: Book, v: Visit)
    requires Unique(b)
    ensures var once := Expand(p, rules, b, v);
            var twice := Expand(p, rules, once.0, v);
            && twice.1 == once.1 && twice.0.kids == once.0.kids && once.0.limits <= twice.0.limits
            && (twice == once <==> !ShowsCrash(p, rules, b, v))
            && (forall e :: e in twice.0.limits && e !in once.0.limits ==> exists i :: IsOverflow(p, b, v, e, i))
            && (twice != once ==> forall e, i :: IsOverflow(p, b, v, e, i) ==> e in twice.0.limits)
  {
    hide AddNext, AddDetails, Known, Mine, Refusal, MyDetails;
    var details, start := KeptDetails(v), Truncated(p, b, v);
    var done := DetailsDone(p, b, v);
    var once := Expand(p, rules, b, v);
    DetailsSettle(p, start, details);
    UniqueAfterDetails(p, start, details);
    NextAdds(p, rules, done.0, v, done.1);
    NextKeepsDetailsKnown(p, rules, done.0, v, done.1);
    FullIsTruncated(p, rules, b, v);
    DetailsAgain(p, done.0, once.0, details);
    var again := DetailsDone(p, once.0, v);
    CountAgain(p, rules, b, v);
    NextAgain(p, rules, done.0, again.0, v, done.1);
    forall e | e in again.0.limits && e !in once.0.limits ensures exists i :: IsOverflow(p, b, v, e, i) {
      var i :| 0 <= i < |details| && Overflows(p, done.0, details[i])
          && e == LimitEvent(p.run, p.task, "detail", details[i], MaxTasks);
      assert IsOverflow(p, b, v, e, i);
    }
    if ShowsCrash(p, rules, b, v) {
      var i :| 0 <= i < |details| && Overflows(p, done.0, details[i])
          && LimitEvent(p.run, p.task, "detail", details[i], MaxTasks) !in once.0.limits;
      assert LimitEvent(p.run, p.task, "detail", details[i], MaxTasks) in again.0.limits;
      assert forall e, i :: IsOverflow(p, b, v, e, i) ==> e in again.0.limits;
    } else {
      assert again.0.limits == once.0.limits;
    }
  }

  lemma FullIsTruncated(p: Page, rules: ListingRules, b: Book, v: Visit)
    ensures Truncated(p, Expand(p, rules, b, v).0, v) == Expand(p, rules, b, v).0
  {
    var done := DetailsDone(p, b, v);
    LimitsOnlyGrow(p, Truncated(p, b, v), KeptDetails(v));
    NextAdds(p, rules, done.0, v, done.1);
    var full := Expand(p, rules, b, v).0;
    if |v.details| > MOST_DETAILS {
      assert LimitEvent(p.run, p.task, "detail", v.final, MaxDiscoveredPerPage) in full.limits;
      assert full.limits + {LimitEvent(p.run, p.task, "detail", v.final, MaxDiscoveredPerPage)} == full.limits;
    }
  }

  lemma CountAgain(p: Page, rules: ListingRules, b: Book, v: Visit)
    requires Unique(b)
    requires DetailsDone(p, Expand(p, rules, b, v).0, v).0.kids == Expand(p, rules, b, v).0.kids
    ensures DetailsDone(p, Expand(p, rules, b, v).0, v).1 == DetailsDone(p, b, v).1
  {
    var details, start, done, once := KeptDetails(v), Truncated(p, b, v), DetailsDone(p, b, v),
        Expand(p, rules, b, v).0;
    var again := DetailsDone(p, once, v);
    NextAdds(p, rules, done.0, v, done.1);
    UniqueAfterDetails(p, start, details);
    UniqueAfterNext(p, rules, done.0, v, done.1);
    NewDetailsAreMine(p, start, details);
    NewDetailsAreMine(p, Truncated(p, once, v), details);
    assert MyDetails(p, again.0) == MyDetails(p, once);
    CountIsOfKids(p, again.0, done.0, details);
  }

  lemma UniqueAfterNext(p: Page, rules: ListingRules, b: Book, v: Visit, newDetails: nat)
    requires Unique(b)
    ensures Unique(AddNext(p, rules, b, v, newDetails).0)
  {
    UniqueStays(p, b, "list", ListInput(v, EmptyStreak(v, newDetails)));
  }

  const URL1 := PageUrl("http", false, "a.org", "1")
  const URL2 := PageUrl("http", false, "a.org", "2")
  const URL3 := PageUrl("http", false, "a.org", "3")
  const TIGHT_PAGE := Page(0, 0, 0, Budget(1, 3, 1, 1, 3600, 1, ["a.org"]))
  const SOME_RULES := ListingRules(5, 5, PageUrl("http", false, "a.org", "0"))
  const TWO_DETAILS := Visit(false, TaskInput(EMPTY_URL, 0, 0, ""), PageUrl("http", false, "a.org", "0"), [URL1, URL2],
                             URL3)
  const ROOT_KID := Kid("trigger", TaskInput(EMPTY_URL, 0, 0, ""), None, 0)
  const FIRST_KID := Kid("detail", DetailInput(URL1), Some(0), 1)

  lemma SomeAdmitted()
    ensures Admits(TIGHT_PAGE.budget, URL1) && Admits(TIGHT_PAGE.budget, URL2) && Admits(TIGHT_PAGE.budget, URL3)
  {
    assert TIGHT_PAGE.budget.allowedDomains[0] == "a.org" && EqualFold("a.org", "a.org");
  }

  lemma SecondDetailOverflows()
    ensures AddDetails(TIGHT_PAGE, Book({ROOT_KID}, {}), [URL1, URL2])
         == (Note(TIGHT_PAGE, Book({ROOT_KID, FIRST_KID}, {}), "detail", URL2, MaxDiscoveredPerPage), 1)
    ensures Admits(TIGHT_PAGE.budget, URL2) && Admits(TIGHT_PAGE.budget, URL3)
  {
    SomeAdmitted();
    var p, b, b1 := TIGHT_PAGE, Book({ROOT_KID}, {}), Book({ROOT_KID, FIRST_KID}, {});
    assert [URL1, URL2][..1] == [URL1] && [URL1][..0] == [];
    assert AddDetails(p, b, []) == (b, 0) && MyDetails(p, b) == {} && |b.kids| == 1;
    assert AddDetails(p, b, [URL1]) == (b1, 1) by { assert b.kids + {FIRST_KID} == b1.kids; }
    assert MyDetails(p, b1) == {FIRST_KID} && !Known(b1, "detail", URL2) && |b1.kids| == 2;
  }

  const BEFORE_NEXT := Note(TIGHT_PAGE, Book({ROOT_KID, FIRST_KID}, {}), "detail", URL2, MaxDiscoveredPerPage)
  const NEXT_KID := Kid("list", ListInput(TWO_DETAILS, 0), Some(0), 1)

  lemma NextTakesTheLastSlot()
    ensures AddNext(TIGHT_PAGE, SOME_RULES, BEFORE_NEXT, TWO_DETAILS, 1)
            == (BEFORE_NEXT.(kids := BEFORE_NEXT.kids + {NEXT_KID}), Outcome(1, 0, GoOn))
    ensures |BEFORE_NEXT.kids + {NEXT_KID}| == 3 && NEXT_KID !in BEFORE_NEXT.kids
    ensures Overflows(TIGHT_PAGE, BEFORE_NEXT, URL2)
  {
    SomeAdmitted();
    assert MyDetails(TIGHT_PAGE, BEFORE_NEXT) == {FIRST_KID} && |BEFORE_NEXT.kids| == 2;
    assert !Known(BEFORE_NEXT, "list", URL3) && !Known(BEFORE_NEXT, "detail", URL2);
  }

  /** The case exists: one detail allowed, three tasks allowed, and a crash after the next page was created. */
  lemma CrashCanShow()
    ensures Unique(Book({ROOT_KID}, {})) && ShowsCrash(TIGHT_PAGE, SOME_RULES, Book({ROOT_KID}, {}), TWO_DETAILS)
    ensures var once := Expand(TIGHT_PAGE, SOME_RULES, Book({ROOT_KID}, {}), TWO_DETAILS);
            && once.1 == Outcome(1, 0, GoOn)
            && LimitEvent(0, 0, "detail", URL2, MaxTasks) !in once.0.limits
            && Expand(TIGHT_PAGE, SOME_RULES, once.0, TWO_DETAILS)
               == (Note(TIGHT_PAGE, once.0, "detail", URL2, MaxTasks), once.1)
  {
    SecondDetailOverflows();
    NextTakesTheLastSlot();
    assert KeptDetails(TWO_DETAILS) == [URL1, URL2]
        && Truncated(TIGHT_PAGE, Book({ROOT_KID}, {}), TWO_DETAILS) == Book({ROOT_KID}, {});
    assert DetailsDone(TIGHT_PAGE, Book({ROOT_KID}, {}), TWO_DETAILS) == (BEFORE_NEXT, 1);
    hide AddNext, AddDetails, DetailsDone, Overflows;
    assert Expand(TIGHT_PAGE, SOME_RULES, Book({ROOT_KID}, {}), TWO_DETAILS).0
        == BEFORE_NEXT.(kids := BEFORE_NEXT.kids + {NEXT_KID});
    assert Overflows(TIGHT_PAGE, BEFORE_NEXT, KeptDetails(TWO_DETAILS)[1]);
    SecondRefusal();
  }

  lemma SecondRefusal()
    requires ShowsCrash(TIGHT_PAGE, SOME_RULES, Book({ROOT_KID}, {}), TWO_DETAILS)
    requires DetailsDone(TIGHT_PAGE, Book({ROOT_KID}, {}), TWO_DETAILS) == (BEFORE_NEXT, 1)
    ensures var once := Expand(TIGHT_PAGE, SOME_RULES, Book({ROOT_KID}, {}), TWO_DETAILS);
            Expand(TIGHT_PAGE, SOME_RULES, once.0, TWO_DETAILS)
            == (Note(TIGHT_PAGE, once.0, "detail", URL2, MaxTasks), once.1)
  {
    var b := Book({ROOT_KID}, {});
    var once := Expand(TIGHT_PAGE, SOME_RULES, b, TWO_DETAILS);
    hide Expand, ShowsCrash, DetailsDone;
    CrashAfterNextPage(TIGHT_PAGE, SOME_RULES, b, TWO_DETAILS);
    assert FIRST_KID in BEFORE_NEXT.kids && KeptDetails(TWO_DETAILS) == [URL1, URL2];
    assert Known(BEFORE_NEXT, "detail", URL1);
    var e := LimitEvent(0, 0, "detail", URL2, MaxTasks);
    var twice := Expand(TIGHT_PAGE, SOME_RULES, once.0, TWO_DETAILS);
    forall f | f in twice.0.limits && f !in once.0.limits ensures f == e {
      var i :| IsOverflow(TIGHT_PAGE, b, TWO_DETAILS, f, i);
    }
    NextTakesTheLastSlot();
    assert IsOverflow(TIGHT_PAGE, b, TWO_DETAILS, e, 1);
    assert twice.0.limits == once.0.limits + {e};
  }
}
