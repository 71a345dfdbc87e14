/**
 What the operations of the scheduler answer and store, in the terms of a user: an edit stores what was asked for, and
 whatever happens later a schedule is the one of its last accepted edit.
 */
module ScheduleAnswers {
  import opened Common
  import opened ScheduleModel
  import opened ScheduleRuns
  import ScheduleStore

  // ----- Edits and stops ------------------------------------------------------------------------------------

  /** The ticks of the workflow that wait are given up for this reason; no other event changes. */
  predicate GivesUp(o: seq<Event>, n: seq<Event>, w: WorkflowId, why: Why) {
    |n| == |o| && forall i :: 0 <= i < |o| ==>
      n[i] == if o[i].workflow == w && o[i].status == Pending then Event(w, o[i].at, Skipped, o[i].run, why) else o[i]
  }

  function ZoneOf(zone: string): string {
    if |zone| > 0 then zone else "UTC"
  }

  /**
   An edit is accepted exactly if the expression has a later time, the workflow exists and, for an enabled schedule, is
   enabled and published.  It stores what was asked for, with the first time from now on for an enabled schedule.
   */
  lemma EditIff(cal: Calendar, b: Book, w: WorkflowId, cron: string, zone: string, enabled: bool, policy: Policy,
                at: Time)
    ensures var (n, ok) := SaveSchedule(cal, b, w, cron, zone, enabled, policy, at);
            && (ok <==>
                  && cal(cron, ZoneOf(zone), at).Some? && w in b.workflows
                  && (enabled ==> b.workflows[w].enabled && b.workflows[w].published))
            && (!ok ==> n == b)
            && (ok ==>
                  && w in n.schedules && n.schedules == b.schedules[w := n.schedules[w]]
                  && var s := n.schedules[w];
                  && s.cron == cron && s.zone == ZoneOf(zone) && s.policy == policy && s.enabled == enabled
                  && (enabled ==> s.next == cal(cron, ZoneOf(zone), at)) && (!enabled ==> s.next.None?)
                  && (w in b.schedules ==> s.last == b.schedules[w].last) && (w !in b.schedules ==> s.last.None?)
                  && GivesUp(b.events, n.events, w, ScheduleChanged)
                  && n.runs == b.runs && n.workflows == b.workflows)
  {
  }

  /** A stop turns workflow and schedule off and leaves the schedule's settings and other workflows alone. */
  lemma StopIff(b: Book, w: WorkflowId)
    ensures var (n, ok) := Stop(b, w);
            && (ok <==> w in b.workflows)
            && (!ok ==> n == b)
            && (ok ==>
                  && w in n.workflows && n.workflows == b.workflows[w := n.workflows[w]]
                  && !n.workflows[w].enabled && n.workflows[w].published == b.workflows[w].published
                  && (w !in b.schedules ==> n.schedules == b.schedules)
                  && (w in b.schedules ==>
                        && w in n.schedules && n.schedules == b.schedules[w := n.schedules[w]]
                        && var s, t := b.schedules[w], n.schedules[w];
                        && t.cron == s.cron && t.zone == s.zone && t.policy == s.policy && t.last == s.last
                        && !t.enabled && t.next.None?)
                  && GivesUp(b.events, n.events, w, WorkflowStopped) && n.runs == b.runs)
  {
  }

  // ----- Dispatches -----------------------------------------------------------------------------------------

  /** The book with the tick of this time on record, once, and the schedule gone on to the next one. */
  function OnRecord(b: Book, w: WorkflowId, due: Time, next: Option<Time>): Book
    requires w in b.schedules
  {
    var s := b.schedules[w];
    var known := exists i :: 0 <= i < |b.events| && b.events[i].workflow == w && b.events[i].at == due;
    b.(schedules := b.schedules[w := Schedule(s.cron, s.zone, s.enabled, s.policy, next, Some(due))],
       events := if known then b.events else b.events + [Event(w, due, Pending, None, NoReason)])
  }

  /** A tick that is due is put on record, if there is a time after both it and now to go on to, and then decided. */
  lemma DueTickIsTaken(cal: Calendar, b: Book, w: WorkflowId, at: Time, valid: bool)
    requires Eligible(b, w, at) && DueAt(b.schedules[w], at)
    ensures var (n, again) := Dispatch(cal, b, w, at, valid);
            var s, due := b.schedules[w], b.schedules[w].next.value;
            var next := cal(s.cron, s.zone, if due < at then at else due);
            && (again <==> next.Some?)
            && (next.None? ==> n == b)
            && (next.Some? ==> n == Decide(OnRecord(b, w, due, next), w, s.policy, valid))
  {
    hide Decide;
  }

  lemma DecideKeepsTicks(b: Book, w: WorkflowId, policy: Policy, valid: bool)
    ensures var n := Decide(b, w, policy, valid);
            && n.schedules == b.schedules && n.workflows == b.workflows && |n.events| == |b.events|
            && forall i :: 0 <= i < |b.events| ==>
                 n.events[i].workflow == b.events[i].workflow && n.events[i].at == b.events[i].at
  {
  }

  /** The oldest tick of the workflow that waits. */
  predicate Oldest(b: Book, w: WorkflowId, i: EventId) {
    PendingAt(b, w, i) && forall j: EventId :: j < i ==> !PendingAt(b, w, j)
  }

  /** A run of the workflow is on. */
  predicate Busy(b: Book, w: WorkflowId) {
    exists r :: 0 <= r < |b.runs| && b.runs[r].workflow == w && b.runs[r].active
  }

  /** The workflow is on, published, and its definition still good. */
  predicate Runnable(b: Book, w: WorkflowId, valid: bool) {
    valid && w in b.workflows && b.workflows[w].published && b.workflows[w].enabled
  }

  /** A dispatcher takes up a schedule that is on and has a due tick, or one that waits and can be decided. */
  lemma EligibleIff(b: Book, w: WorkflowId, at: Time)
    ensures Eligible(b, w, at) <==>
              && w in b.schedules && b.schedules[w].enabled
              && var s := b.schedules[w];
              || (s.next.Some? && s.next.value <= at)
              || ((exists i :: Oldest(b, w, i)) && (s.policy == Queue ==> !Busy(b, w)))
  {
    if w in b.schedules && FirstPending(b, w, 0).Some? {
      assert Oldest(b, w, FirstPending(b, w, 0).value);
    }
  }

  /** A manual start adds one active run of a workflow that can run, and nothing else. */
  lemma ManualStartIff(b: Book, w: WorkflowId, valid: bool)
    ensures var (n, run) := StartRun(b, w, valid);
            && (run.Some? <==> Runnable(b, w, valid))
            && (run.None? ==> n == b)
            && (run.Some? ==> run.value == |b.runs| && n == b.(runs := b.runs + [Run(w, Manual, true)]))
  {
  }

  /**
   What a decision makes of the oldest tick that waits: beside an active run it is skipped or goes on waiting, by the
   policy; otherwise it starts a run, or fails if the workflow cannot run.  Nothing else changes.
   */
  lemma DecisionIff(b: Book, w: WorkflowId, policy: Policy, valid: bool, i: EventId)
    requires Oldest(b, w, i)
    ensures var n := Decide(b, w, policy, valid);
            && i < |n.events| && n == b.(events := b.events[i := n.events[i]], runs := n.runs)
            && var e := n.events[i];
            && (e.status == Pending <==> Busy(b, w) && policy == Queue)
            && (e.status == Skipped <==> Busy(b, w) && policy == Skip)
            && (e.status == Started <==> !Busy(b, w) && Runnable(b, w, valid))
            && (e.status == Failed <==> !Busy(b, w) && !Runnable(b, w, valid))
            && (e.status == Pending ==> e == b.events[i])
            && (e.status == Skipped ==> e == b.events[i].(status := Skipped, why := ActiveRun))
            && (e.status == Failed ==> e == b.events[i].(status := Failed, why := StartFailed))
            && (e.status == Started ==> e == b.events[i].(status := Started, run := Some(|b.runs|)))
            && n.runs == b.runs + if e.status == Started then [Run(w, Cron, true)] else []
  {
    assert FirstPending(b, w, 0) == Some(i);
  }

  /** Without a tick that is due a dispatch only decides; it asks for more unless the oldest tick goes on waiting. */
  lemma QuietDispatchDecides(cal: Calendar, b: Book, w: WorkflowId, at: Time, valid: bool)
    requires Eligible(b, w, at) && !DueAt(b.schedules[w], at)
    ensures Dispatch(cal, b, w, at, valid).0 == Decide(b, w, b.schedules[w].policy, valid)
    ensures Dispatch(cal, b, w, at, valid).1
    ensures exists i :: Oldest(b, w, i)
  {
    assert Oldest(b, w, FirstPending(b, w, 0).value);
  }

  /** The schedule with the earlier next time comes first, then the lower id; one without a next time comes last. */
  lemma FirstInLine(schedules: map<WorkflowId, Schedule>, v: WorkflowId, w: WorkflowId)
    requires v in schedules && w in schedules && v != w
    ensures ScheduleStore.Before(schedules, v, w) <==> !ScheduleStore.Before(schedules, w, v)
    ensures var a, b := schedules[v].next, schedules[w].next;
            && (a.Some? && b.None? ==> ScheduleStore.Before(schedules, v, w))
            && (a.Some? && b.Some? && a.value < b.value ==> ScheduleStore.Before(schedules, v, w))
            && (a == b ==> (ScheduleStore.Before(schedules, v, w) <==> v < w))
  {
  }

  // ----- The last edit --------------------------------------------------------------------------------------

  /** The k-th action is an edit of the workflow's schedule that is accepted. */
  predicate EditsAt(cal: Calendar, acts: seq<Action>, w: WorkflowId, k: nat) {
    k < |acts| && acts[k].Save? && acts[k].w == w
        && SaveSchedule(cal, Exec(cal, NOTHING, acts[..k]), w, acts[k].cron, acts[k].zone, acts[k].enabled,
                        acts[k].policy, acts[k].at).1
  }

  ghost predicate LastEdit(cal: Calendar, acts: seq<Action>, w: WorkflowId, k: nat) {
    EditsAt(cal, acts, w, k) && forall j: nat :: k < j ==> !EditsAt(cal, acts, w, j)
  }

  predicate StoppedAfter(acts: seq<Action>, w: WorkflowId, k: nat) {
    exists j :: k < j < |acts| && acts[j] == Halt(w)
  }

  /** A step that is no accepted edit of it leaves a schedule's settings, and only a stop turns it off. */
  lemma SettingsStay(cal: Calendar, b: Book, a: Action, w: WorkflowId)
    requires w in b.schedules && w in b.workflows
    requires !(a.Save? && a.w == w && SaveSchedule(cal, b, w, a.cron, a.zone, a.enabled, a.policy, a.at).1)
    ensures var n := Next(cal, b, a);
            && w in n.schedules && w in n.workflows
            && var s, t := b.schedules[w], n.schedules[w];
            && t.cron == s.cron && t.zone == s.zone && t.policy == s.policy
            && (t.enabled <==> s.enabled && a != Halt(w))
  {
    hide Decide, HasTick;
    if a.Tick? && Eligible(b, a.w, a.at) {
      var s := b.schedules[a.w];
      DecideKeepsTicks(b, a.w, s.policy, a.valid);
      if DueAt(s, a.at) {
        var next := cal(s.cron, s.zone, Later(s.next.value, a.at));
        if next.Some? {
          DecideKeepsTicks(TakeDue(b, a.w, next.value), a.w, s.policy, a.valid);
        }
      }
    }
  }

  lemma PrefixEdits(cal: Calendar, acts: seq<Action>, w: WorkflowId, k: nat)
    requires acts != [] && k < |acts| - 1
    ensures EditsAt(cal, acts, w, k) <==> EditsAt(cal, acts[..|acts| - 1], w, k)
  {
    assert acts[..|acts| - 1][..k] == acts[..k];
  }

  lemma NoEditYet(cal: Calendar, b: Book, a: Action, w: WorkflowId)
    requires w !in b.schedules
    ensures w in Next(cal, b, a).schedules <==>
              a.Save? && a.w == w && SaveSchedule(cal, b, w, a.cron, a.zone, a.enabled, a.policy, a.at).1
  {
    hide Dispatch;
    if a.Tick? && Eligible(b, a.w, a.at) {
      DispatchKeepsSchedules(cal, b, a.w, a.at, a.valid);
    }
  }

  lemma DispatchKeepsSchedules(cal: Calendar, b: Book, w: WorkflowId, at: Time, valid: bool)
    requires Eligible(b, w, at)
    ensures Dispatch(cal, b, w, at, valid).0.schedules.Keys == b.schedules.Keys
  {
    var s := b.schedules[w];
    DecideKeepsTicks(b, w, s.policy, valid);
    if DueAt(s, at) {
      var next := cal(s.cron, s.zone, Later(s.next.value, at));
      if next.Some? {
        DecideKeepsTicks(TakeDue(b, w, next.value), w, s.policy, valid);
      }
    }
    hide Decide, HasTick;
  }

  /** The settings of a schedule are those of this edit, and it is on if the edit said so and no stop came after. */
  predicate SetBy(s: Schedule, a: Action, stopped: bool)
    requires a.Save?
  {
    s.cron == a.cron && s.zone == ZoneOf(a.zone) && s.policy == a.policy && (s.enabled <==> a.enabled && !stopped)
  }

  /** The workflow has a schedule exactly if an edit of it was accepted, and then the one of the last such edit. */
  ghost predicate AsLastEdited(cal: Calendar, acts: seq<Action>, w: WorkflowId, b: Book) {
    if forall k: nat :: !LastEdit(cal, acts, w, k) then w !in b.schedules
    else w in b.schedules && w in b.workflows && forall k: nat :: LastEdit(cal, acts, w, k) ==>
      SetBy(b.schedules[w], acts[k], StoppedAfter(acts, w, k))
  }

  /** An edit that is accepted at the end is the last one. */
  lemma EditIsLast(cal: Calendar, acts: seq<Action>, w: WorkflowId)
    requires acts != [] && EditsAt(cal, acts, w, |acts| - 1)
    ensures forall k: nat :: LastEdit(cal, acts, w, k) <==> k == |acts| - 1
    ensures !StoppedAfter(acts, w, |acts| - 1)
  {
    hide Exec, SaveSchedule;
  }

  lemma LastEditStays(cal: Calendar, acts: seq<Action>, w: WorkflowId, k: nat)
    requires acts != [] && !EditsAt(cal, acts, w, |acts| - 1)
    ensures LastEdit(cal, acts, w, k) <==> LastEdit(cal, acts[..|acts| - 1], w, k)
    ensures LastEdit(cal, acts, w, k) ==> k < |acts| - 1
  {
    var front := acts[..|acts| - 1];
    forall j: nat ensures EditsAt(cal, acts, w, j) <==> EditsAt(cal, front, w, j) {
      if j < |front| {
        PrefixEdits(cal, acts, w, j);
      } else if j > |front| {
        EditIsSave(cal, acts, w, j);
      }
    }
    EditIsSave(cal, front, w, k);
    SameLastEdit(cal, acts, front, w, k);
  }

  lemma SameLastEdit(cal: Calendar, a: seq<Action>, b: seq<Action>, w: WorkflowId, k: nat)
    requires forall j: nat :: EditsAt(cal, a, w, j) <==> EditsAt(cal, b, w, j)
    ensures LastEdit(cal, a, w, k) <==> LastEdit(cal, b, w, k)
  {
    hide EditsAt;
  }

  lemma StopsSoFar(acts: seq<Action>, w: WorkflowId, k: nat)
    requires k < |acts| - 1
    ensures StoppedAfter(acts, w, k) <==> StoppedAfter(acts[..|acts| - 1], w, k) || acts[|acts| - 1] == Halt(w)
  {
    var front := acts[..|acts| - 1];
    if StoppedAfter(acts, w, k) {
      var j :| k < j < |acts| && acts[j] == Halt(w);
      assert j < |front| ==> front[j] == Halt(w);
    }
    if StoppedAfter(front, w, k) {
      var j :| k < j < |front| && front[j] == Halt(w);
      assert acts[j] == Halt(w);
    }
  }

  lemma EditIsSave(cal: Calendar, acts: seq<Action>, w: WorkflowId, k: nat)
    ensures EditsAt(cal, acts, w, k) ==> k < |acts|
  {
  }

  /**
   In every history a workflow has a schedule exactly if an edit of it was accepted, and the schedule is then that of
   the last such edit: its expression, its zone, its policy, and enabled unless the workflow was stopped afterwards.
   */
  lemma {:induction false} ScheduleIsItsLastEdit(cal: Calendar, acts: seq<Action>, w: WorkflowId)
    ensures AsLastEdited(cal, acts, w, Exec(cal, NOTHING, acts))
  {
    if acts == [] {
      NothingEdited(cal, w);
    } else {
      ScheduleIsItsLastEdit(cal, acts[..|acts| - 1], w);
      if EditsAt(cal, acts, w, |acts| - 1) {
        AfterEdit(cal, acts, w);
      } else {
        AfterOther(cal, acts, w);
      }
    }
  }

  lemma NothingEdited(cal: Calendar, w: WorkflowId)
    ensures AsLastEdited(cal, [], w, NOTHING)
  {
  }

  lemma AfterEdit(cal: Calendar, acts: seq<Action>, w: WorkflowId)
    requires acts != [] && EditsAt(cal, acts, w, |acts| - 1)
    ensures AsLastEdited(cal, acts, w, Exec(cal, NOTHING, acts))
  {
    var k: nat := |acts| - 1;
    var a := acts[k];
    EditIsLast(cal, acts, w);
    assert LastEdit(cal, acts, w, k);
    EditIff(cal, Exec(cal, NOTHING, acts[..k]), w, a.cron, a.zone, a.enabled, a.policy, a.at);
    hide SaveSchedule, LastEdit, StoppedAfter, GivesUp;
  }

  lemma AfterOther(cal: Calendar, acts: seq<Action>, w: WorkflowId)
    requires acts != [] && !EditsAt(cal, acts, w, |acts| - 1)
    requires AsLastEdited(cal, acts[..|acts| - 1], w, Exec(cal, NOTHING, acts[..|acts| - 1]))
    ensures AsLastEdited(cal, acts, w, Exec(cal, NOTHING, acts))
  {
    var front, a := acts[..|acts| - 1], acts[|acts| - 1];
    var b := Exec(cal, NOTHING, front);
    forall k: nat
      ensures LastEdit(cal, acts, w, k) <==> LastEdit(cal, front, w, k)
      ensures LastEdit(cal, acts, w, k) ==> k < |front| && front[k] == acts[k]
      ensures LastEdit(cal, acts, w, k) ==>
                (StoppedAfter(acts, w, k) <==> StoppedAfter(front, w, k) || a == Halt(w))
    {
      LastEditStays(cal, acts, w, k);
      if k < |front| {
        StopsSoFar(acts, w, k);
      }
    }
    if w in b.schedules {
      SettingsStay(cal, b, a, w);
    } else {
      NoEditYet(cal, b, a, w);
    }
    hide LastEdit, StoppedAfter, SaveSchedule, Next, EditsAt;
  }

  /** So what skips a tick beside an active run is the policy of the last accepted edit. */
  lemma SkippingWasAskedFor(cal: Calendar, acts: seq<Action>, a: Action, w: WorkflowId) returns (k: nat)
    requires BesideActiveRun(Exec(cal, NOTHING, acts), a, w)
    ensures LastEdit(cal, acts, w, k) && k < |acts| && acts[k].Save? && acts[k].policy == Skip && acts[k].enabled
    ensures !StoppedAfter(acts, w, k)
  {
    ScheduleIsItsLastEdit(cal, acts, w);
    k :| LastEdit(cal, acts, w, k);
    hide Exec, SaveSchedule, StoppedAfter;
  }
}
