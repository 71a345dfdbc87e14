/**
 A records task from its stored document to the record store.  The document always yields the same candidates
 and each candidate carries the number of its task and item as its key, so a task that is executed again
 after a crash leaves the store as it was.
 */
module RecordTask {
  import opened Common
  import opened Json
  import opened RecordModel
  import opened RecordLog
  import opened FieldFlow
  import RecordStore

  function DigitOf(d: nat): char
    requires d < 10
  {
    (d + 48) as char
  }

  function Digits(n: nat): (text: string)
    ensures text != "" && forall i :: 0 <= i < |text| ==> '0' <= text[i] <= '9'
  {
    if n < 10 then [DigitOf(n)] else Digits(n / 10) + [DigitOf(n % 10)]
  }

  lemma {:induction false} DigitsDiffer(m: nat, n: nat)
    requires Digits(m) == Digits(n)
    ensures m == n
    decreases m
  {
    DigitCount(m);
    DigitCount(n);
    if m < 10 {
      assert Digits(m)[0] == Digits(n)[0];
    } else {
      assert Digits(m)[..|Digits(m)| - 1] == Digits(m / 10) && Digits(n)[..|Digits(n)| - 1] == Digits(n / 10);
      assert Digits(m)[|Digits(m)| - 1] == DigitOf(m % 10) && Digits(n)[|Digits(n)| - 1] == DigitOf(n % 10);
      DigitsDiffer(m / 10, n / 10);
    }
  }

  lemma DigitCount(n: nat)
    ensures |Digits(n)| >= 2 <==> n >= 10
  {
  }

  function ItemKey(task: nat, item: nat): string {
    "workflow-task:" + Digits(task) + ":item:" + Digits(item)
  }

  /** The write requests of a task: its candidates in order, keyed by task and item. */
  function TaskItems(task: nat, dataset: int, version: int, candidates: seq<Candidate>): seq<Item> {
    seq(|candidates|, i requires 0 <= i < |candidates| =>
          Item(dataset, version, candidates[i].values, ItemKey(task, i)))
  }

  lemma KeysAreTold(task: nat, i: nat, j: nat)
    ensures Trim(ItemKey(task, i)) != ""
    ensures ItemKey(task, i) == ItemKey(task, j) ==> i == j
  {
    var key := ItemKey(task, i);
    assert key[0] == 'w' && '0' <= key[|key| - 1] <= '9';
    TrimTrims(key);
    var front := "workflow-task:" + Digits(task) + ":item:";
    if ItemKey(task, i) == ItemKey(task, j) {
      assert ItemKey(task, i)[|front|..] == Digits(i) && ItemKey(task, j)[|front|..] == Digits(j);
      DigitsDiffer(i, j);
    }
  }

  /** A number ends at the colon behind it. */
  lemma NumberEnds(x: string, p: string, y: string, q: string)
    requires x + (":" + p) == y + (":" + q) && forall i :: 0 <= i < |x| ==> x[i] != ':'
    ensures |x| <= |y|
  {
    assert forall i :: 0 <= i < |x| ==> (x + (":" + p))[i] != ':';
    assert (y + (":" + q))[|y|] == ':';
  }

  /** No two items of all tasks share a key. */
  lemma KeysTellTasks(t: nat, i: nat, u: nat, j: nat)
    requires ItemKey(t, i) == ItemKey(u, j)
    ensures t == u && i == j
  {
    var p, q := "item:" + Digits(i), "item:" + Digits(j);
    assert ItemKey(t, i)[|"workflow-task:"|..] == Digits(t) + (":" + p);
    assert ItemKey(u, j)[|"workflow-task:"|..] == Digits(u) + (":" + q);
    NumberEnds(Digits(t), p, Digits(u), q);
    NumberEnds(Digits(u), q, Digits(t), p);
    assert (Digits(t) + (":" + p))[..|Digits(t)|] == (Digits(u) + (":" + q))[..|Digits(t)|];
    DigitsDiffer(t, u);
    KeysAreTold(t, i, j);
  }

  /** What the store prepares from a traced candidate is that candidate. */
  lemma {:induction false} TracedCandidatesArePrepared<Page>(env: Env<Page>, pages: seq<Page>, nodes: seq<Node>,
                                                             role: string, schema: Schema)
    requires CandidatesOf(env, pages, nodes, role, schema).Some?
    ensures var candidates := CandidatesOf(env, pages, nodes, role, schema).value;
            |candidates| == |pages| && forall i ::
                  0 <= i < |candidates| ==> Prepare(env.formats, schema, candidates[i].values) == Some(candidates[i])
  {
    if pages != [] {
      var front, last := pages[..|pages| - 1], pages[|pages| - 1];
      TracedCandidatesArePrepared(env, front, nodes, role, schema);
      PrepareIsIdempotent(env.formats, schema, RunNodes(env, last, nodes, role).value);
    }
  }

  method MakeItems(task: nat, dataset: int, version: int, candidates: seq<Candidate>) returns (items: seq<Item>)
    ensures items == TaskItems(task, dataset, version, candidates)
  {
    items := [];
    for i := 0 to |candidates|
      invariant |items| == i && items == TaskItems(task, dataset, version, candidates)[..i]
    {
      items := items + [Item(dataset, version, candidates[i].values, ItemKey(task, i))];
    }
  }

  method PersistRecords(fmt: Formats, store: RecordStore.Store, task: nat, dataset: int, version: int,
                        candidates: seq<Candidate>)
    returns (results: Option<seq<Result>>)
    modifies store
    ensures (store.View(), results) == SaveBatch(fmt, old(store.View()), TaskItems(task, dataset, version, candidates))
  {
    var items := MakeItems(task, dataset, version, candidates);
    results := store.SaveBatch(fmt, items);
  }

  /**
   A task that was executed, lost its worker after the batch was committed and is executed again from the same
   document, after whatever else was written meanwhile: nothing is written, and the same records,
   observations and decisions are reported.
   */
  lemma RecordsTaskHappensOnce<Page>(env: Env<Page>, pages: seq<Page>, nodes: seq<Node>, role: string, schema: Schema,
                                     s: Shelf, task: nat, dataset: int, ops: seq<Op>)
    requires Sound(s) && Logged(s) && CandidatesOf(env, pages, nodes, role, schema).Some?
    requires SaveBatch(env.formats, s,
                       TaskItems(task, dataset, schema.version,
                                 CandidatesOf(env, pages, nodes, role, schema).value)).1.Some?
    requires forall k :: 0 <= k < |ops| && ops[k].EditOp? ==> ops[k].dataset != dataset
    ensures var items := TaskItems(task, dataset, schema.version, CandidatesOf(env, pages, nodes, role, schema).value);
            var (once, results) := SaveBatch(env.formats, s, items);
            var later := History(env.formats, once, ops);
            var (again, replies) := SaveBatch(env.formats, later, items);
            && again == later && replies.Some? && |replies.value| == |results.value|
            && forall i :: 0 <= i < |replies.value| ==> SameOutcome(replies.value[i], results.value[i])
  {
    var items := TaskItems(task, dataset, schema.version, CandidatesOf(env, pages, nodes, role, schema).value);
    forall i | 0 <= i < |items| ensures Trim(items[i].idem) != "" {
      KeysAreTold(task, i, i);
    }
    BatchHappensOnce(env.formats, s, items, ops);
  }

  /**
   A fresh task is saved as traced: no candidate is rejected, changed or taken for another one.  Of a magnet
   dataset this is so for candidates that saving prepares as they were traced.
   */
  lemma FreshTaskIsSaved<Page>(env: Env<Page>, pages: seq<Page>, nodes: seq<Node>, role: string, s: Shelf, task: nat,
                               dataset: int)
    requires Sound(s) && dataset > 0 && dataset in s.datasets && s.datasets[dataset].active
    requires CandidatesOf(env, pages, nodes, role, s.datasets[dataset].schema).Some? && 1 <= |pages| <= LARGEST_BATCH
    requires s.datasets[dataset].magnet ==>
               forall c ::
                     c in CandidatesOf(env, pages, nodes, role, s.datasets[dataset].schema).value ==>
                       PreparedAlike(env.formats, s.datasets[dataset], c.values)
    requires forall i: nat :: i < |pages| ==> |ItemKey(task, i)| <= LONGEST_IDEM && forall o: ObservationId ::
               !Answers(s, dataset, ItemKey(task, i), o)
    ensures var candidates := CandidatesOf(env, pages, nodes, role, s.datasets[dataset].schema).value;
            var results := SaveBatch(env.formats, s, TaskItems(task, dataset, s.datasets[dataset].schema.version,
                                                               candidates)).1;
            results.Some? && |results.value| == |candidates| && forall i ::
                  0 <= i < |candidates| ==> results.value[i].key == candidates[i].key
  {
    hide SaveEach, Prepare, Sound, CandidatesOf;
    var schema := s.datasets[dataset].schema;
    var candidates := CandidatesOf(env, pages, nodes, role, schema).value;
    TracedCandidatesArePrepared(env, pages, nodes, role, schema);
    var items := TaskItems(task, dataset, schema.version, candidates);
    assert items[..|items|] == items;
    FreshPrefixIsSaved(env.formats, s, items, candidates, task, dataset, |items|);
  }

  ghost predicate StillFresh(s: Shelf, items: seq<Item>, from: nat) {
    forall i: nat :: from <= i < |items| ==> forall o: ObservationId :: !Answers(s, items[i].dataset, items[i].idem, o)
  }

  lemma {:induction false} FreshPrefixIsSaved(fmt: Formats, s: Shelf, items: seq<Item>, candidates: seq<Candidate>,
                                              task: nat, dataset: int, k: nat)
    requires Sound(s) && dataset > 0 && dataset in s.datasets && s.datasets[dataset].active
    requires items == TaskItems(task, dataset, s.datasets[dataset].schema.version, candidates) && k <= |items|
    requires forall i :: 0 <= i < |candidates| ==>
               Prepare(fmt, s.datasets[dataset].schema, Canonical(s.datasets[dataset], candidates[i].values))
                   == Some(candidates[i])
    requires forall i: nat :: i < |items| ==> |items[i].idem| <= LONGEST_IDEM
    requires StillFresh(s, items, 0)
    ensures var (n, results) := SaveEach(fmt, s, items[..k]);
            && Sound(n) && n.datasets == s.datasets && StillFresh(n, items, k)
            && results.Some? && |results.value| == k && forall i ::
                 0 <= i < k ==> results.value[i].key == candidates[i].key
  {
    hide SaveOne, Prepare, Sound;
    if k > 0 {
      FreshPrefixIsSaved(fmt, s, items, candidates, task, dataset, k - 1);
      assert items[..k][..k - 1] == items[..k - 1];
      var n := SaveEach(fmt, s, items[..k - 1]).0;
      SaveIsSound(fmt, n, items[k - 1]);
      FreshItemIsSaved(fmt, n, items, candidates[k - 1], task, dataset, k - 1);
    }
  }

  lemma FreshItemIsSaved(fmt: Formats, n: Shelf, items: seq<Item>, c: Candidate, task: nat, dataset: int, k: nat)
    requires Sound(n) && k < |items| && items[k].dataset == dataset && Addressed(n, items[k])
    requires |items[k].idem| <= LONGEST_IDEM
    requires PreparedItem(fmt, n, items[k]) == Some(c)
    requires forall i: nat :: i < |items| ==> items[i].idem == ItemKey(task, i) && items[i].dataset == dataset
    requires StillFresh(n, items, k)
    ensures var (after, reply) := SaveOne(fmt, n, items[k]);
            StillFresh(after, items, k + 1) && reply.Saved? && reply.result.key == c.key
  {
    hide Prepare, Outcome;
    WritePlaces(n, items[k], c);
    assert FindObservation(n, dataset, items[k].idem, 0).None?;
    var after := Write(n, items[k], c).0;
    assert SaveOne(fmt, n, items[k]) == (after, Saved(Write(n, items[k], c).1));
    hide Write, SaveOne;
    forall i: nat, o: ObservationId | k + 1 <= i < |items| ensures !Answers(after, dataset, items[i].idem, o) {
      assert !Answers(n, dataset, items[i].idem, o);
      KeysAreTold(task, i, k);
      if o in n.observations {
        OldRecord(n, o);
      }
    }
  }

  lemma OldRecord(n: Shelf, o: ObservationId)
    requires Sound(n) && o in n.observations
    ensures n.observations[o].record in n.records && o < n.nextObservation
  {
  }
}
