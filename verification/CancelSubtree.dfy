/**
 Cancelling a task closes everything below it, and it stays closed: no descendant is claimed again and
 no new one appears until the retry of a failed descendant commits.
 */
module CancelSubtree {
  import opened TaskModel
  import opened TaskSystem
  import opened Ownership
  import opened Protocol

  ghost predicate Closed(db: Db, root: TaskId) {
    root in db.tasks && forall t :: t in Subtree(db, root) ==> !TaskActive(db.tasks[t].status)
  }

  /** The one way to open a closed subtree: a retry of one of its failed tasks commits. */
  predicate Reopens(s: Sys, a: Action, root: TaskId) {
    FootprintOf(s, a).retried.Some? && FootprintOf(s, a).retried.value in Subtree(s.db, root)
  }

  /** A task is under another one whatever happens to the rest of the database. */
  lemma {:induction false} PlaceUnderKept(o: Db, n: Db, f: Footprint, root: TaskId, t: TaskId)
    requires Referenced(o) && DbMove(o, n, f) && root in o.tasks && t in o.tasks
    ensures Under(o, root, t) <==> Under(n, root, t)
    decreases t
  {
    PlaceKept(o, n, f, t);
    var parent := o.tasks[t].parent;
    if t != root && parent.Some? && parent.value < t {
      PlaceUnderKept(o, n, f, root, parent.value);
    }
  }

  lemma UnderIsClosed(db: Db, root: TaskId, t: TaskId)
    requires Closed(db, root)
    ensures t in db.tasks && Under(db, root, t) ==> !TaskActive(db.tasks[t].status)
  {
    if t in db.tasks && Under(db, root, t) {
      assert t in Subtree(db, root);
    }
  }

  lemma NewRowsHangElsewhere(s: Sys, a: Action, root: TaskId, t: TaskId)
    requires Inv(s) && Closed(s.db, root)
    requires t in Next(s, a).db.tasks && t !in s.db.tasks && FootprintOf(s, a).inserts
    ensures Next(s, a).db.tasks[t].parent.Some? ==>
              && Next(s, a).db.tasks[t].parent.value in s.db.tasks
              && !Under(s.db, root, Next(s, a).db.tasks[t].parent.value)
  {
    hide Closed, Inv, TaskModel.CreateChild;
    InvImpliesOrder(s);
    if a.CreateChild? {
      CreateChildShape(s.db, a.claim, a.step, a.input);
      UnderIsClosed(s.db, root, a.claim.task);
    }
  }

  lemma SubtreeKept(s: Sys, a: Action, root: TaskId)
    requires Inv(s) && Closed(s.db, root)
    ensures root in Next(s, a).db.tasks && Subtree(Next(s, a).db, root) == Subtree(s.db, root)
  {
    hide Next, Inv, DbMove;
    StepKeepsInv(s, a);
    var n, f := Next(s, a).db, FootprintOf(s, a);
    PlaceKept(s.db, n, f, root);
    forall t: TaskId ensures t in Subtree(n, root) <==> t in Subtree(s.db, root) {
      MemberKept(s, a, root, t);
    }
  }

  lemma MemberKept(s: Sys, a: Action, root: TaskId, t: TaskId)
    requires Inv(s) && Closed(s.db, root)
    ensures t in Next(s, a).db.tasks && Under(Next(s, a).db, root, t) <==> t in s.db.tasks && Under(s.db, root, t)
  {
    hide Next;
    StepKeepsInv(s, a);
    var n, f := Next(s, a).db, FootprintOf(s, a);
    if t in s.db.tasks {
      PlaceKept(s.db, n, f, t);
      PlaceUnderKept(s.db, n, f, root, t);
    } else if t in n.tasks {
      NewRowsHangElsewhere(s, a, root, t);
      if n.tasks[t].parent.Some? {
        PlaceUnderKept(s.db, n, f, root, n.tasks[t].parent.value);
      }
    }
  }

  /** A step opens a closed subtree exactly if it is the retry of one of its failed tasks and commits. */
  lemma ClosedStepIff(s: Sys, a: Action, root: TaskId)
    requires Inv(s) && Closed(s.db, root)
    ensures Closed(Next(s, a).db, root) <==> !Reopens(s, a, root)
  {
    hide Next, Inv, DbMove, FootprintOf;
    if Reopens(s, a, root) {
      var t := FootprintOf(s, a).retried.value;
      StepKeepsInv(s, a);
      SubtreeKept(s, a, root);
      RowMoved(s.db, Next(s, a).db, FootprintOf(s, a), t);
      assert t in Subtree(Next(s, a).db, root);
    } else {
      ClosedStep(s, a, root);
    }
  }

  lemma ClosedStep(s: Sys, a: Action, root: TaskId)
    requires Inv(s) && Closed(s.db, root) && !Reopens(s, a, root)
    ensures Closed(Next(s, a).db, root) && Subtree(Next(s, a).db, root) == Subtree(s.db, root)
  {
    hide Next, Inv, DbMove;
    StepKeepsInv(s, a);
    SubtreeKept(s, a, root);
    forall t | t in Subtree(s.db, root) ensures t in Next(s, a).db.tasks && !TaskActive(Next(s, a).db.tasks[t].status) {
      RowMoved(s.db, Next(s, a).db, FootprintOf(s, a), t);
    }
  }

  /** What the cancelling transaction itself achieves. */
  lemma CancelCloses(db: Db, id: TaskId)
    requires TaskModel.CancelTask(db, id).reply == Cancelled
    ensures var n := TaskModel.CancelTask(db, id).db; Closed(n, id) && Subtree(n, id) == Subtree(db, id)
  {
    var n := TaskModel.CancelTask(db, id).db;
    assert n.tasks.Keys == db.tasks.Keys;
    forall t | t in db.tasks ensures Under(db, id, t) <==> Under(n, id, t) {
      SameParentsSameTree(db, n, id, t);
    }
  }

  /** Ending a run by hand or by its deadline leaves no open task in it and touches no task of another run. */
  lemma RunEndsAreComplete(db: Db, run: RunId)
    ensures var r := TaskModel.CancelRun(db, run);
            r.reply ==> ActiveTasksOf(r.db, run) == {} && run in r.db.runs && r.db.runs[run].status == RunCancelled
    ensures var r := TaskModel.ExpireRun(db, run);
            r.reply ==> ActiveTasksOf(r.db, run) == {} && forall t :: t in ActiveTasksOf(db, run) ==>
              t in r.db.tasks && r.db.tasks[t].status == TaskLimited
              && LimitEvent(run, t, db.tasks[t].step, db.tasks[t].input.url, MaxDuration) in r.db.limits
    ensures forall t :: t in db.tasks && db.tasks[t].run != run ==>
              && t in TaskModel.CancelRun(db, run).db.tasks && TaskModel.CancelRun(db, run).db.tasks[t] == db.tasks[t]
              && t in TaskModel.ExpireRun(db, run).db.tasks && TaskModel.ExpireRun(db, run).db.tasks[t] == db.tasks[t]
  {
    EndsLeaveOthers(db, run);
    forall t | t in ActiveTasksOf(db, run)
      ensures LimitEvent(run, t, db.tasks[t].step, db.tasks[t].input.url, MaxDuration) in ExpireEvents(db, run)
    {
    }
  }

  lemma EndsLeaveOthers(db: Db, run: RunId)
    ensures forall t :: t in db.tasks && db.tasks[t].run != run ==>
              && t in TaskModel.CancelRun(db, run).db.tasks && TaskModel.CancelRun(db, run).db.tasks[t] == db.tasks[t]
              && t in TaskModel.ExpireRun(db, run).db.tasks && TaskModel.ExpireRun(db, run).db.tasks[t] == db.tasks[t]
  {
  }

  lemma {:induction false} SameParentsSameTree(o: Db, n: Db, root: TaskId, t: TaskId)
    requires o.tasks.Keys == n.tasks.Keys && forall k :: k in o.tasks ==> n.tasks[k].parent == o.tasks[k].parent
    ensures Under(o, root, t) <==> Under(n, root, t)
    decreases t
  {
    if t in o.tasks && o.tasks[t].parent.Some? && o.tasks[t].parent.value < t {
      SameParentsSameTree(o, n, root, o.tasks[t].parent.value);
    }
  }

  /** A closed subtree keeps its members and stays closed until one of them is retried. */
  lemma {:induction false} ClosedStaysClosed(s: Sys, id: TaskId, acts: seq<Action>)
    requires Inv(s) && Closed(s.db, id)
    requires forall i :: 0 <= i < |acts| ==> !Reopens(Exec(s, acts[..i]), acts[i], id)
    ensures Closed(Exec(s, acts).db, id) && Subtree(Exec(s, acts).db, id) == Subtree(s.db, id)
    decreases |acts|
  {
    hide Next, Inv, Reopens, Closed, Subtree;
    if acts != [] {
      var front := acts[..|acts| - 1];
      FrontPrefixes(acts);
      ClosedStaysClosed(s, id, front);
      InvAlways(s, front);
      ClosedStep(Exec(s, front), acts[|acts| - 1], id);
    }
  }

  /** Over any steps: closed at every moment exactly if no retry of a member commits. */
  lemma ClosedAllAlongIff(s: Sys, id: TaskId, acts: seq<Action>)
    requires Inv(s) && Closed(s.db, id)
    ensures (forall k :: 0 <= k <= |acts| ==> Closed(Exec(s, acts[..k]).db, id))
            <==> (forall k :: 0 <= k < |acts| ==> !Reopens(Exec(s, acts[..k]), acts[k], id))
  {
    hide Exec, Next, Inv, Closed, Reopens;
    if forall k :: 0 <= k <= |acts| ==> Closed(Exec(s, acts[..k]).db, id) {
      forall k | 0 <= k < |acts| ensures !Reopens(Exec(s, acts[..k]), acts[k], id) {
        InvAlways(s, acts[..k]);
        NextPrefix(s, acts, k);
        ClosedStepIff(Exec(s, acts[..k]), acts[k], id);
      }
    }
    if forall k :: 0 <= k < |acts| ==> !Reopens(Exec(s, acts[..k]), acts[k], id) {
      forall k | 0 <= k <= |acts| ensures Closed(Exec(s, acts[..k]).db, id) {
        assert forall i :: 0 <= i < k ==> acts[..k][..i] == acts[..i] && acts[..k][i] == acts[i];
        ClosedStaysClosed(s, id, acts[..k]);
      }
    }
  }

  lemma NextPrefix(s: Sys, acts: seq<Action>, k: nat)
    requires k < |acts|
    ensures Exec(s, acts[..k + 1]) == Next(Exec(s, acts[..k]), acts[k])
  {
    hide Next;
    assert acts[..k + 1][..k] == acts[..k];
  }

  /**
   After a cancel commits, in every later state the subtree has the same members and all of them have
   ended, as long as no retry of one of them has committed.
   */
  lemma CancelledSubtreeStaysClosed(s: Sys, p: ProcId, id: TaskId, acts: seq<Action>)
    requires Inv(s) && At(s, p).Idle? && TaskModel.CancelTask(s.db, id).reply == Cancelled
    requires var n := Next(s, CancelTask(p, id));
             forall i :: 0 <= i < |acts| ==> !Reopens(Exec(n, acts[..i]), acts[i], id)
    ensures var later := Exec(Next(s, CancelTask(p, id)), acts).db;
            && Subtree(later, id) == Subtree(s.db, id)
            && forall t :: t in Subtree(s.db, id) ==> t in later.tasks && !TaskActive(later.tasks[t].status)
  {
    hide Next, Inv, Reopens, Exec, TaskModel.CancelTask;
    CancelStep(s, p, id);
    ClosedStaysClosed(Next(s, CancelTask(p, id)), id, acts);
    hide Under;
  }

  lemma CancelStep(s: Sys, p: ProcId, id: TaskId)
    requires Inv(s) && At(s, p).Idle? && TaskModel.CancelTask(s.db, id).reply == Cancelled
    ensures var n := Next(s, CancelTask(p, id)); Inv(n) && Closed(n.db, id) && Subtree(n.db, id) == Subtree(s.db, id)
  {
    hide Next, Inv, DbMove, TaskModel.CancelTask, Subtree, Closed;
    CancelCloses(s.db, id);
    CancelCommits(s, p, id);
    StepKeepsInv(s, CancelTask(p, id));
  }

  lemma CancelCommits(s: Sys, p: ProcId, id: TaskId)
    requires At(s, p).Idle? && TaskModel.CancelTask(s.db, id).reply == Cancelled
    ensures Next(s, CancelTask(p, id)).db == TaskModel.CancelTask(s.db, id).db
  {
    hide TaskModel.CancelTask;
  }

  /** Not even a retry brings a cancelled, succeeded or limited task back. */
  lemma {:induction false} EndedForGood(s: Sys, acts: seq<Action>, t: TaskId)
    requires Inv(s) && t in s.db.tasks && s.db.tasks[t].status in {TaskCancelled, TaskSucceeded, TaskLimited}
    ensures t in Exec(s, acts).db.tasks && Exec(s, acts).db.tasks[t].status == s.db.tasks[t].status
    decreases |acts|
  {
    hide Next, Inv, DbMove;
    if acts != [] {
      var front := acts[..|acts| - 1];
      EndedForGood(s, front, t);
      InvAlways(s, front);
      StepKeepsInv(Exec(s, front), acts[|acts| - 1]);
      RowMoved(Exec(s, front).db, Exec(s, acts).db, FootprintOf(Exec(s, front), acts[|acts| - 1]), t);
    }
  }
}
