/**
 The persistent scheduler on values: schedules, their ticks as events, and the runs they start.  A time given
 to an operation is the one its process read before the transaction.
 */
module ScheduleModel {
  import opened Common

  type Time = nat
  type WorkflowId = nat
  type EventId = nat
  type RunId = nat

  datatype Policy = Skip | Queue

  datatype EventStatus = Pending | Started | Skipped | Failed

  datatype Why = NoReason | ScheduleChanged | WorkflowStopped | ActiveRun | StartFailed

  datatype Trigger = Manual | Cron

  datatype Workflow = Workflow(enabled: bool, published: bool)

  datatype Schedule = Schedule(cron: string, zone: string, enabled: bool, policy: Policy, next: Option<Time>,
                               last: Option<Time>)

  datatype Event = Event(workflow: WorkflowId, at: Time, status: EventStatus, run: Option<RunId>, why: Why)

  datatype Run = Run(workflow: WorkflowId, trigger: Trigger, active: bool)

  /** Events and runs are numbered in the order of their insertion. */
  datatype Book = Book(workflows: map<WorkflowId, Workflow>, schedules: map<WorkflowId, Schedule>, events: seq<Event>,
                       runs: seq<Run>)

  /** The calendar: the first time after a given one that an expression names in a zone. */
  type Calendar = (string, string, Time) -> Option<Time>

  ghost predicate StrictlyLater(cal: Calendar) {
    forall cron, zone, t: Time :: cal(cron, zone, t).Some? ==> t < cal(cron, zone, t).value
  }

  // ----- Reading ---------------------------------------------------------------------------------

  predicate HasActive(b: Book, w: WorkflowId) {
    exists r :: 0 <= r < |b.runs| && b.runs[r].workflow == w && b.runs[r].active
  }

  predicate PendingAt(b: Book, w: WorkflowId, i: EventId) {
    i < |b.events| && b.events[i].workflow == w && b.events[i].status == Pending
  }

  function FirstPending(b: Book, w: WorkflowId, from: EventId): (found: Option<EventId>)
    ensures found.Some? ==> from <= found.value && PendingAt(b, w, found.value) && forall i ::
              from <= i < found.value ==> !PendingAt(b, w, i)
    ensures found.None? ==> forall i :: from <= i ==> !PendingAt(b, w, i)
    decreases |b.events| - from
  {
    if from >= |b.events| then None
    else if PendingAt(b, w, from) then Some(from)
    else FirstPending(b, w, from + 1)
  }

  predicate HasTick(b: Book, w: WorkflowId, at: Time) {
    exists i :: 0 <= i < |b.events| && b.events[i].workflow == w && b.events[i].at == at
  }

  predicate DueAt(s: Schedule, at: Time) {
    s.next.Some? && s.next.value <= at
  }

  /** What the dispatcher looks for: a due tick, or a pending one that can be decided now. */
  predicate Eligible(b: Book, w: WorkflowId, at: Time) {
    && w in b.schedules && b.schedules[w].enabled
    && (DueAt(b.schedules[w], at)
        || (FirstPending(b, w, 0).Some? && (b.schedules[w].policy == Skip || !HasActive(b, w))))
  }

  // ----- Runs ------------------------------------------------------------------------------------------

  /** A run starts if the workflow is enabled and has a published version that still validates. */
  predicate CanStart(b: Book, w: WorkflowId, valid: bool) {
    w in b.workflows && b.workflows[w].enabled && b.workflows[w].published && valid
  }

  function AddRun(b: Book, w: WorkflowId, trigger: Trigger): Book {
    b.(runs := b.runs + [Run(w, trigger, true)])
  }

  function StartRun(b: Book, w: WorkflowId, valid: bool): (Book, Option<RunId>) {
    if CanStart(b, w, valid) then (AddRun(b, w, Manual), Some(|b.runs|)) else (b, None)
  }

  // ----- Editing and stopping ------------------------------------------------------------------------

  /** Every pending tick of the workflow is given up. */
  function DropPending(events: seq<Event>, w: WorkflowId, why: Why): seq<Event> {
    seq(|events|, i requires 0 <= i < |events| =>
      if events[i].workflow == w && events[i].status == Pending then events[i].(status := Skipped, why := why)
          else events[i])
  }

  function SaveSchedule(cal: Calendar, b: Book, w: WorkflowId, cron: string, zone: string, enabled: bool,
                        policy: Policy, at: Time): (Book, bool) {
    var z := if zone == "" then "UTC" else zone;
    var next := cal(cron, z, at);
    if next.None? || w !in b.workflows || (enabled && !(b.workflows[w].enabled && b.workflows[w].published))
        then (b, false)
    else
      var last := if w in b.schedules then b.schedules[w].last else None;
      (b.(schedules := b.schedules[w := Schedule(cron, z, enabled, policy, if enabled then next else None, last)],
          events := DropPending(b.events, w, ScheduleChanged)), true)
  }

  function Stop(b: Book, w: WorkflowId): (Book, bool) {
    if w !in b.workflows then (b, false)
    else
      (b.(workflows := b.workflows[w := b.workflows[w].(enabled := false)],
          schedules := if w in b.schedules then b.schedules[w := b.schedules[w].(enabled := false, next := None)]
              else b.schedules,
          events := DropPending(b.events, w, WorkflowStopped)), true)
  }

  // ----- Dispatching ------------------------------------------------------------------------------------

  function Later(a: Time, b: Time): Time {
    if a < b then b else a
  }

  /** A due tick becomes an event, unless it already is one, and the schedule moves on past now. */
  function TakeDue(b: Book, w: WorkflowId, next: Time): Book
    requires w in b.schedules && b.schedules[w].next.Some?
  {
    var due := b.schedules[w].next.value;
    b.(schedules := b.schedules[w := b.schedules[w].(next := Some(next), last := Some(due))],
       events := if HasTick(b, w, due) then b.events else b.events + [Event(w, due, Pending, None, NoReason)])
  }

  /** The oldest pending tick is decided: skipped beside an active run, or it starts a run; a queue waits. */
  function Decide(b: Book, w: WorkflowId, policy: Policy, valid: bool): Book {
    match FirstPending(b, w, 0)
    case None => b
    case Some(i) =>
      if HasActive(b, w) then
        if policy == Skip then b.(events := b.events[i := b.events[i].(status := Skipped, why := ActiveRun)]) else b
      else if CanStart(b, w, valid) then
        AddRun(b, w, Cron).(events := b.events[i := b.events[i].(status := Started, run := Some(|b.runs|))])
      else b.(events := b.events[i := b.events[i].(status := Failed, why := StartFailed)])
  }

  /** One eligible schedule; the reply says whether to look for more. */
  function Dispatch(cal: Calendar, b: Book, w: WorkflowId, at: Time, valid: bool): (Book, bool)
    requires Eligible(b, w, at)
  {
    var s := b.schedules[w];
    if DueAt(s, at) then
      var next := cal(s.cron, s.zone, Later(s.next.value, at));
      if next.None? then (b, false) else (Decide(TakeDue(b, w, next.value), w, s.policy, valid), true)
    else (Decide(b, w, s.policy, valid), !(HasActive(b, w) && s.policy == Queue))
  }
}
