/** The scheduler as an object: its tables are fields that each transaction updates row by row. */
module ScheduleStore {
  import opened Common
  import opened ScheduleModel

  class Scheduler {
    const cal: Calendar
    var workflows: map<WorkflowId, Workflow>
    var schedules: map<WorkflowId, Schedule>
    var events: seq<Event>
    var runs: seq<Run>

    function View(): Book
      reads this
    {
      Book(workflows, schedules, events, runs)
    }

    constructor (calendar: Calendar)
      ensures cal == calendar && View() == Book(map[], map[], [], [])
    {
      cal := calendar;
      workflows, schedules, events, runs := map[], map[], [], [];
    }

    method LookUpPending(w: WorkflowId) returns (found: Option<EventId>)
      ensures found == FirstPending(View(), w, 0)
    {
      var i := 0;
      while i < |events|
        invariant 0 <= i <= |events|
        invariant FirstPending(View(), w, 0) == FirstPending(View(), w, i)
      {
        if events[i].workflow == w && events[i].status == Pending {
          return Some(i);
        }
        i := i + 1;
      }
      found := None;
    }

    method CountActive(w: WorkflowId) returns (n: nat)
      ensures n > 0 <==> HasActive(View(), w)
      ensures n <= |runs|
    {
      n := 0;
      for r := 0 to |runs|
        invariant n <= r && (n > 0 <==> exists q :: 0 <= q < r && runs[q].workflow == w && runs[q].active)
      {
        if runs[r].workflow == w && runs[r].active {
          n := n + 1;
        }
      }
    }

    method SkipPending(w: WorkflowId, why: Why)
      modifies this`events
      ensures events == DropPending(old(events), w, why)
    {
      for i := 0 to |events|
        invariant |events| == |old(events)|
        invariant forall j :: 0 <= j < i ==> events[j] == DropPending(old(events), w, why)[j]
        invariant forall j :: i <= j < |events| ==> events[j] == old(events)[j]
      {
        if events[i].workflow == w && events[i].status == Pending {
          events := events[i := events[i].(status := Skipped, why := why)];
        }
      }
    }

    method SaveSchedule(w: WorkflowId, cron: string, zone: string, enabled: bool, policy: Policy, at: Time)
      returns (ok: bool)
      modifies this
      ensures (View(), ok) == ScheduleModel.SaveSchedule(cal, old(View()), w, cron, zone, enabled, policy, at)
    {
      var z := if zone == "" then "UTC" else zone;
      var next := cal(cron, z, at);
      if next.None? || w !in workflows {
        return false;
      }
      if enabled && (!workflows[w].enabled || !workflows[w].published) {
        return false;
      }
      var last := if w in schedules then schedules[w].last else None;
      schedules := schedules[w := Schedule(cron, z, enabled, policy, if enabled then next else None, last)];
      SkipPending(w, ScheduleChanged);
      ok := true;
    }

    method Stop(w: WorkflowId) returns (ok: bool)
      modifies this
      ensures (View(), ok) == ScheduleModel.Stop(old(View()), w)
    {
      if w !in workflows {
        return false;
      }
      workflows := workflows[w := workflows[w].(enabled := false)];
      if w in schedules {
        schedules := schedules[w := schedules[w].(enabled := false, next := None)];
      }
      SkipPending(w, WorkflowStopped);
      ok := true;
    }

    method StartRun(w: WorkflowId, valid: bool) returns (run: Option<RunId>)
      modifies this`runs
      ensures (View(), run) == ScheduleModel.StartRun(old(View()), w, valid)
    {
      if w !in workflows || !workflows[w].enabled || !workflows[w].published || !valid {
        return None;
      }
      run := Some(|runs|);
      runs := runs + [Run(w, Manual, true)];
    }

    /** The eligible schedule with the earliest next tick; schedules without one come last, ties go to the lower id. */
    method Choose(at: Time) returns (w: Option<WorkflowId>)
      ensures w.None? ==> forall v :: !Eligible(View(), v, at)
      ensures w.Some? ==> Eligible(View(), w.value, at) && forall v ::
                Eligible(View(), v, at) ==> !Before(schedules, v, w.value)
    {
      w := None;
      var rest := schedules.Keys;
      while rest != {}
        invariant rest <= schedules.Keys
        invariant w.None? ==> forall v :: Eligible(View(), v, at) ==> v in rest
        invariant w.Some? ==> Eligible(View(), w.value, at) && forall v ::
                    Eligible(View(), v, at) && v !in rest ==> !Before(schedules, v, w.value)
        decreases |rest|
      {
        var v :| v in rest;
        rest := rest - {v};
        var pending := LookUpPending(v);
        var active := CountActive(v);
        var s := schedules[v];
        if s.enabled && ((s.next.Some? && s.next.value <= at) || (pending.Some? && (s.policy == Skip || active == 0))) {
          if w.None? || Before(schedules, v, w.value) {
            w := Some(v);
          }
        }
      }
    }

    /** One transaction of the dispatcher for an eligible schedule. */
    method DispatchOne(w: WorkflowId, at: Time, valid: bool) returns (again: bool)
      requires Eligible(View(), w, at)
      modifies this
      ensures (View(), again) == Dispatch(cal, old(View()), w, at, valid)
    {
      var s := schedules[w];
      var dueTick := s.next.Some? && s.next.value <= at;
      if dueTick {
        var due := s.next.value;
        var anchor := due;
        if at > anchor {
          anchor := at;
        }
        var next := cal(s.cron, s.zone, anchor);
        if next.None? {
          return false;
        }
        schedules := schedules[w := s.(next := next, last := Some(due))];
        var known := exists i :: 0 <= i < |events| && events[i].workflow == w && events[i].at == due;
        if !known {
          events := events + [Event(w, due, Pending, None, NoReason)];
        }
      }
      var active := CountActive(w);
      DecideOldest(w, s.policy, valid, active);
      var deferred := active > 0 && s.policy == Queue;
      again := dueTick || !deferred;
    }

    method DecideOldest(w: WorkflowId, policy: Policy, valid: bool, active: nat)
      requires active > 0 <==> HasActive(View(), w)
      modifies this`events, this`runs
      ensures View() == Decide(old(View()), w, policy, valid)
    {
      var pending := LookUpPending(w);
      if pending.None? {
        return;
      }
      var i := pending.value;
      if active > 0 && policy == Skip {
        events := events[i := events[i].(status := Skipped, why := ActiveRun)];
      } else if active == 0 {
        if w in workflows && workflows[w].enabled && workflows[w].published && valid {
          events := events[i := events[i].(status := Started, run := Some(|runs|))];
          runs := runs + [Run(w, Cron, true)];
        } else {
          events := events[i := events[i].(status := Failed, why := StartFailed)];
        }
      }
    }

    /** Dispatches the schedule that comes first, if one is eligible. */
    method DispatchTick(at: Time, valid: bool) returns (again: bool)
      modifies this
      ensures (forall v :: !Eligible(old(View()), v, at)) ==> !again && View() == old(View())
      ensures (exists v :: Eligible(old(View()), v, at)) ==>
                exists v :: Eligible(old(View()), v, at) && (View(), again) == Dispatch(cal, old(View()), v, at, valid)
                            && forall u :: Eligible(old(View()), u, at) ==> !Before(old(schedules), u, v)
    {
      var w := Choose(at);
      if w.None? {
        return false;
      }
      again := DispatchOne(w.value, at, valid);
    }
  }

  predicate Before(schedules: map<WorkflowId, Schedule>, v: WorkflowId, w: WorkflowId) {
    && v in schedules && w in schedules
    && var a, b := schedules[v].next, schedules[w].next;
    if a.Some? && b.Some? then a.value < b.value || (a.value == b.value && v < w)
    else if a.Some? || b.Some? then a.Some?
    else v < w
  }

  /**
   A due schedule without a later time that stands first in line holds up all others: whatever schedule the dispatcher
   may choose, it chooses this one, fails and changes nothing.
   */
  lemma EndedScheduleBlocksTheLine(cal: Calendar, b: Book, w: WorkflowId, at: Time, valid: bool)
    requires Eligible(b, w, at) && DueAt(b.schedules[w], at)
    requires cal(b.schedules[w].cron, b.schedules[w].zone, Later(b.schedules[w].next.value, at)).None?
    requires forall u :: Eligible(b, u, at) && u != w ==> Before(b.schedules, w, u)
    ensures forall v :: Eligible(b, v, at) && (forall u :: Eligible(b, u, at) ==> !Before(b.schedules, u, v)) ==>
              Dispatch(cal, b, v, at, valid) == (b, false)
  {
    forall v | Eligible(b, v, at) && (forall u :: Eligible(b, u, at) ==> !Before(b.schedules, u, v)) ensures v == w {
      assert !Before(b.schedules, w, v);
    }
  }
}
