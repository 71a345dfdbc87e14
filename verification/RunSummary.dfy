/**
 The summary of a finished run.  The counters are kept by an object to which one task row after the
 other is added; what they mean is said by sums over the rows, so the order of the rows is irrelevant.
 */
module RunSummary {
  import opened TaskModel

  /** A task of the run joined with its latest succeeded attempt. */
  datatype Row = Row(kind: TaskKind, status: TaskStatus, output: Output)

  datatype Tally = Tally(
    pages: int, succeeded: int, failed: int, cancelled: int, limited: int, discovered: int, resources: int,
    records: int, created: int, updated: int, kept: int)

  const ZERO := Tally(0, 0, 0, 0, 0, 0, 0, 0, 0, 0, 0)

  function Plus(a: Tally, b: Tally): Tally {
    Tally(a.pages + b.pages, a.succeeded + b.succeeded, a.failed + b.failed, a.cancelled + b.cancelled,
          a.limited + b.limited, a.discovered + b.discovered, a.resources + b.resources, a.records + b.records,
          a.created + b.created, a.updated + b.updated, a.kept + b.kept)
  }

  function One(b: bool): int { if b then 1 else 0 }

  /** How many results name a record, and how many of these carry the decision `d` (every one when `any`). */
  function CountResults(results: seq<RecordResult>, any: bool, d: Decision): (n: int)
    ensures n >= 0
    ensures any ==> (n > 0 <==> exists i :: 0 <= i < |results| && results[i].recordId > 0)
  {
    if results == [] then 0
    else
      var last := results[|results| - 1];
      CountResults(results[..|results| - 1], any, d) + One(last.recordId > 0 && (any || last.decision == d))
  }

  /** What one task row contributes. */
  function Weight(row: Row): Tally {
    var own := Tally(1, One(row.status == TaskSucceeded), One(row.status == TaskFailed || row.status == TaskDeadLetter),
                     One(row.status == TaskCancelled), One(row.status == TaskLimited), 0, 0, 0, 0, 0, 0);
    if row.status != TaskSucceeded || row.output.NoOutput? then own
    else
      var o := row.output;
      Plus(own, Tally(0, 0, 0, 0, One(o.limited), o.discovered, One(o.resourceId > 0),
                      CountResults(o.results, true, Created), CountResults(o.results, false, Created),
                      CountResults(o.results, false, Updated), CountResults(o.results, false, Unchanged)))
  }

  function Sum(rows: seq<Row>): Tally {
    if rows == [] then ZERO else Plus(Sum(rows[..|rows| - 1]), Weight(rows[|rows| - 1]))
  }

  /** The status a summary decides, given the number of durable observations and limit events of the run. */
  function Verdict(t: Tally, observations: nat, limitEvents: nat): RunStatus {
    var records := if observations > 0 then observations else t.records;
    if t.cancelled > 0 then RunCancelled
    else if t.resources == 0 && records == 0 then RunFailed
    else if t.limited > 0 || limitEvents > 0 then RunLimited
    else if t.failed > 0 then RunPartial
    else RunSucceeded
  }

  function Aggregate(failed: bool, cancelled: bool): RunStatus {
    if failed then RunFailed else if cancelled then RunCancelled else RunSucceeded
  }

  class Summary {
    var pages: int
    var succeeded: int
    var failed: int
    var cancelled: int
    var limited: int
    var discovered: int
    var resources: int
    var records: int
    var created: int
    var updated: int
    var kept: int

    function Value(): Tally
      reads this
    {
      Tally(pages, succeeded, failed, cancelled, limited, discovered, resources, records, created, updated, kept)
    }

    constructor ()
      ensures Value() == ZERO
    {
      pages, succeeded, failed, cancelled, limited, discovered := 0, 0, 0, 0, 0, 0;
      resources, records, created, updated, kept := 0, 0, 0, 0, 0;
    }

    /** The record results of one page; a result without a record id does not count. */
    method CountRecords(results: seq<RecordResult>)
      modifies this
      ensures Value() == old(Value()).(
                records := old(records) + CountResults(results, true, Created),
                created := old(created) + CountResults(results, false, Created),
                updated := old(updated) + CountResults(results, false, Updated),
                kept := old(kept) + CountResults(results, false, Unchanged))
    {
      for i := 0 to |results|
        invariant Value() == old(Value()).(
                    records := old(records) + CountResults(results[..i], true, Created),
                    created := old(created) + CountResults(results[..i], false, Created),
                    updated := old(updated) + CountResults(results[..i], false, Updated),
                    kept := old(kept) + CountResults(results[..i], false, Unchanged))
      {
        var result := results[i];
        assert results[..i + 1][..i] == results[..i];
        if result.recordId > 0 {
          records := records + 1;
          match result.decision {
            case Created => created := created + 1;
            case Updated => updated := updated + 1;
            case Unchanged => kept := kept + 1;
          }
        }
      }
      assert results[..|results|] == results;
    }

    /** The page and how it ended. */
    method CountStatus(status: TaskStatus)
      modifies this
      ensures Value() == old(Value()).(
                pages := old(pages) + 1,
                succeeded := old(succeeded) + One(status == TaskSucceeded),
                failed := old(failed) + One(status == TaskFailed || status == TaskDeadLetter),
                cancelled := old(cancelled) + One(status == TaskCancelled),
                limited := old(limited) + One(status == TaskLimited))
    {
      pages := pages + 1;
      match status {
        case TaskSucceeded => succeeded := succeeded + 1;
        case TaskFailed => failed := failed + 1;
        case TaskDeadLetter => failed := failed + 1;
        case TaskCancelled => cancelled := cancelled + 1;
        case TaskLimited => limited := limited + 1;
        case _ =>
      }
    }

    method Add(row: Row)
      modifies this
      ensures Value() == Plus(old(Value()), Weight(row))
    {
      hide CountResults;
      var status, output := row.status, row.output;
      CountStatus(status);
      if status != TaskSucceeded || output.NoOutput? {
        return;
      }
      discovered := discovered + output.discovered;
      CountRecords(output.results);
      if output.resourceId > 0 {
        resources := resources + 1;
      }
      if output.limited {
        limited := limited + 1;
      }
    }

    method Status(observations: nat, limitEvents: nat) returns (status: RunStatus)
      ensures status == Verdict(Value(), observations, limitEvents)
    {
      var counted := if observations > 0 then observations else records;
      if cancelled > 0 {
        return RunCancelled;
      }
      if resources == 0 && counted == 0 {
        return RunFailed;
      }
      if limited > 0 || limitEvents > 0 {
        return RunLimited;
      }
      status := if failed > 0 then RunPartial else RunSucceeded;
    }
  }

  /** Adds one row after the other, giving up at the first task that is still open. */
  method Summarise(rows: seq<Row>) returns (open: bool, workflowRun: bool, summary: Summary)
    ensures fresh(summary)
    ensures open <==> HasRow(rows, TaskQueued) || HasRow(rows, TaskRunning)
    ensures !open ==> summary.Value() == Sum(rows)
    ensures !open ==> (workflowRun <==> HasWorkflow(rows))
  {
    hide Plus, Weight, Sum, HasRow, HasWorkflow;
    summary := new Summary();
    workflowRun := false;
    NoRowYet(rows);
    for i := 0 to |rows|
      invariant !HasRow(rows[..i], TaskQueued) && !HasRow(rows[..i], TaskRunning)
      invariant workflowRun <==> HasWorkflow(rows[..i])
      invariant fresh(summary) && summary.Value() == Sum(rows[..i])
    {
      OneMoreRow(rows, i);
      if rows[i].status == TaskQueued || rows[i].status == TaskRunning {
        return true, false, summary;
      }
      if rows[i].kind == Workflow {
        workflowRun := true;
      }
      summary.Add(rows[i]);
    }
    open := false;
  }

  lemma NoRowYet(rows: seq<Row>)
    ensures !HasRow(rows[..0], TaskQueued) && !HasRow(rows[..0], TaskRunning) && !HasWorkflow(rows[..0])
    ensures Sum(rows[..0]) == ZERO && rows[..|rows|] == rows
  {
  }

  lemma OneMoreRow(rows: seq<Row>, i: nat)
    requires i < |rows|
    ensures rows[i].status == TaskQueued ==> HasRow(rows, TaskQueued)
    ensures rows[i].status == TaskRunning ==> HasRow(rows, TaskRunning)
    ensures HasRow(rows[..i + 1], TaskQueued) <==> HasRow(rows[..i], TaskQueued) || rows[i].status == TaskQueued
    ensures HasRow(rows[..i + 1], TaskRunning) <==> HasRow(rows[..i], TaskRunning) || rows[i].status == TaskRunning
    ensures HasWorkflow(rows[..i + 1]) <==> HasWorkflow(rows[..i]) || rows[i].kind == Workflow
    ensures Sum(rows[..i + 1]) == Plus(Sum(rows[..i]), Weight(rows[i]))
  {
    hide Plus, Weight, Sum;
    assert rows[..i + 1] == rows[..i] + [rows[i]];
    Snoc(rows[..i], rows[i]);
    SumSnoc(rows[..i], rows[i]);
  }

  // ----- What the sums mean -------------------------------------------------------------

  predicate HasRow(rows: seq<Row>, status: TaskStatus) {
    exists i :: 0 <= i < |rows| && rows[i].status == status
  }

  predicate HasWorkflow(rows: seq<Row>) {
    exists i :: 0 <= i < |rows| && rows[i].kind == Workflow
  }

  predicate ProductiveRow(row: Row) {
    row.status == TaskSucceeded && row.output.Output? && (row.output.resourceId > 0 || NamesRecord(row.output))
  }

  predicate AnyProductive(rows: seq<Row>) {
    exists i :: 0 <= i < |rows| && ProductiveRow(rows[i])
  }

  predicate AnyLimited(rows: seq<Row>) {
    exists i :: 0 <= i < |rows| && LimitedRow(rows[i])
  }

  predicate LimitedRow(row: Row) {
    row.status == TaskLimited || (row.status == TaskSucceeded && row.output.Output? && row.output.limited)
  }

  /** A counter is positive exactly when some row accounts for it; none is ever negative. */
  lemma {:induction false} SumsCountRows(rows: seq<Row>)
    ensures var t := Sum(rows);
            && t.cancelled >= 0 && t.failed >= 0 && t.limited >= 0 && t.resources >= 0 && t.records >= 0
            && (t.cancelled > 0 <==> HasRow(rows, TaskCancelled))
            && (t.failed > 0 <==> HasRow(rows, TaskFailed) || HasRow(rows, TaskDeadLetter))
            && (t.limited > 0 <==> AnyLimited(rows))
            && (t.resources + t.records > 0 <==> AnyProductive(rows))
  {
    if rows != [] {
      var front, last := rows[..|rows| - 1], rows[|rows| - 1];
      SumsCountRows(front);
      assert rows == front + [last];
      Snoc(front, last);
      SumSnoc(front, last);
    }
  }

  lemma SumSnoc(front: seq<Row>, last: Row)
    ensures Sum(front + [last]) == Plus(Sum(front), Weight(last))
  {
    assert (front + [last])[..|front|] == front;
  }

  /** What the queries say of a list with one more row. */
  lemma Snoc(front: seq<Row>, last: Row)
    ensures HasWorkflow(front + [last]) <==> HasWorkflow(front) || last.kind == Workflow
    ensures AnyLimited(front + [last]) <==> AnyLimited(front) || LimitedRow(last)
    ensures AnyProductive(front + [last]) <==> AnyProductive(front) || ProductiveRow(last)
    ensures forall s :: HasRow(front + [last], s) <==> HasRow(front, s) || last.status == s
  {
    var rows := front + [last];
    assert rows[|front|] == last;
    assert forall i :: 0 <= i < |front| ==> rows[i] == front[i];
  }

  /** How many rows' tasks ended like this. */
  function With(rows: seq<Row>, status: TaskStatus): nat {
    if rows == [] then 0 else With(rows[..|rows| - 1], status) + if rows[|rows| - 1].status == status then 1 else 0
  }

  lemma {:induction false} ResultsByDecision(results: seq<RecordResult>, d: Decision)
    ensures CountResults(results, true, d) == CountResults(results, false, Created)
              + CountResults(results, false, Updated) + CountResults(results, false, Unchanged)
  {
    if results != [] {
      ResultsByDecision(results[..|results| - 1], d);
    }
  }

  /** What the succeeded pages say they discovered. */
  function DiscoveredBy(rows: seq<Row>): int {
    if rows == [] then 0
    else
      var last := rows[|rows| - 1];
      DiscoveredBy(rows[..|rows| - 1])
          + if last.status == TaskSucceeded && last.output.Output? then last.output.discovered else 0
  }

  /** The counters count every row once, by how it ended, and every record once, by what became of it. */
  lemma {:induction false} TotalsAddUp(rows: seq<Row>)
    ensures var t := Sum(rows);
            && t.pages == |rows|
            && t.succeeded == With(rows, TaskSucceeded) && t.cancelled == With(rows, TaskCancelled)
            && t.failed == With(rows, TaskFailed) + With(rows, TaskDeadLetter)
            && With(rows, TaskLimited) <= t.limited <= With(rows, TaskLimited) + With(rows, TaskSucceeded)
            && t.records == t.created + t.updated + t.kept
            && 0 <= t.resources <= t.succeeded && t.discovered == DiscoveredBy(rows)
  {
    if rows != [] {
      var front, last := rows[..|rows| - 1], rows[|rows| - 1];
      assert rows == front + [last];
      TotalsAddUp(front);
      SumSnoc(front, last);
      if last.output.Output? {
        ResultsByDecision(last.output.results, Created);
      }
    }
  }

  lemma PlusIsAssociative(a: Tally, b: Tally, c: Tally)
    ensures Plus(Plus(a, b), c) == Plus(a, Plus(b, c))
  {
  }

  lemma {:induction false} SumOfConcat(a: seq<Row>, b: seq<Row>)
    ensures Sum(a + b) == Plus(Sum(a), Sum(b))
  {
    if b == [] {
      assert a + b == a;
    } else {
      var front, weight := b[..|b| - 1], Weight(b[|b| - 1]);
      assert (a + b)[..|a + b| - 1] == a + front;
      SumOfConcat(a, front);
      assert Sum(a + b) == Plus(Sum(a + front), weight);
      PlusIsAssociative(Sum(a), Sum(front), weight);
    }
  }

  lemma PlusMovesLast(a: Tally, b: Tally, c: Tally)
    ensures Plus(Plus(a, b), c) == Plus(Plus(a, c), b)
  {
  }

  lemma SplitAt(b: seq<Row>, row: Row, others: multiset<Row>) returns (left: seq<Row>, right: seq<Row>)
    requires multiset(b) == others + multiset{row}
    ensures b == left + [row] + right && multiset(left + right) == others
  {
    assert row in multiset(b);
    var j :| 0 <= j < |b| && b[j] == row;
    left, right := b[..j], b[j + 1..];
    assert b == left + [row] + right;
    assert multiset(left + right) + multiset{row} == others + multiset{row};
    forall x ensures multiset(left + right)[x] == others[x] {
      assert (multiset(left + right) + multiset{row})[x] == (others + multiset{row})[x];
    }
  }

  /** The rows come back from the database in no particular order; the summary does not depend on it. */
  lemma {:induction false} SummaryIgnoresRowOrder(a: seq<Row>, b: seq<Row>)
    requires multiset(a) == multiset(b)
    ensures Sum(a) == Sum(b)
    decreases |a|
  {
    if a == [] {
      assert |multiset(b)| == 0;
    } else {
      var front, last := a[..|a| - 1], a[|a| - 1];
      assert a == front + [last];
      assert multiset(a) == multiset(front) + multiset{last};
      var left, right := SplitAt(b, last, multiset(front));
      SummaryIgnoresRowOrder(front, left + right);
      assert Sum(a) == Plus(Sum(left + right), Sum([last])) by { SumOfConcat(front, [last]); }
      assert Sum(left + right) == Plus(Sum(left), Sum(right)) by { SumOfConcat(left, right); }
      assert Sum(b) == Plus(Plus(Sum(left), Sum([last])), Sum(right)) by {
        SumOfConcat(left + [last], right);
        SumOfConcat(left, [last]);
      }
      PlusMovesLast(Sum(left), Sum([last]), Sum(right));
    }
  }
}
