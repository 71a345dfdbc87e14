/**
 The scheduler over whole runs: any interleaving of dispatchers, edits, stops, publications, manual starts,
 and of runs that end and are retried.
 */
module ScheduleRuns {
  import opened Common
  import opened ScheduleModel

  datatype Action =
    | Create(w: WorkflowId)
    | Publish(w: WorkflowId)
    | Save(w: WorkflowId, cron: string, zone: string, enabled: bool, policy: Policy, at: Time)
    | Halt(w: WorkflowId)
    | Start(w: WorkflowId, valid: bool)
    | Tick(w: WorkflowId, at: Time, valid: bool)
    | RunEnds(r: RunId)
    | RunRetried(r: RunId)

  function SetRun(b: Book, r: RunId, active: bool): Book {
    if r < |b.runs| then b.(runs := b.runs[r := b.runs[r].(active := active)]) else b
  }

  function Next(cal: Calendar, b: Book, a: Action): Book {
    match a
    case Create(w) => if w in b.workflows then b else b.(workflows := b.workflows[w := Workflow(false, false)])
    case Publish(w) => if w in b.workflows then b.(workflows := b.workflows[w := Workflow(true, true)]) else b
    case Save(w, cron, zone, enabled, policy, at) => SaveSchedule(cal, b, w, cron, zone, enabled, policy, at).0
    case Halt(w) => Stop(b, w).0
    case Start(w, valid) => StartRun(b, w, valid).0
    case Tick(w, at, valid) => if Eligible(b, w, at) then Dispatch(cal, b, w, at, valid).0 else b
    case RunEnds(r) => SetRun(b, r, false)
    case RunRetried(r) => SetRun(b, r, true)
  }

  function Exec(cal: Calendar, b: Book, acts: seq<Action>): Book {
    if acts == [] then b else Next(cal, Exec(cal, b, acts[..|acts| - 1]), acts[|acts| - 1])
  }

  const NOTHING := Book(map[], map[], [], [])

  // ----- The invariant -------------------------------------------------------------------------------

  /** A tick of a workflow is one event. */
  ghost predicate TicksUnique(b: Book) {
    forall i, j ::
          0 <= i < j < |b.events| && b.events[i].workflow == b.events[j].workflow ==> b.events[i].at != b.events[j].at
  }

  /** Pending ticks are the latest ones of their workflow: earlier ones are decided first. */
  ghost predicate OldestFirst(b: Book) {
    forall i, j ::
          0 <= i < j < |b.events| && b.events[i].workflow == b.events[j].workflow && b.events[i].status == Pending ==>
            b.events[j].status == Pending
  }

  predicate Causes(b: Book, i: EventId, r: RunId) {
    i < |b.events| && b.events[i].run == Some(r)
  }

  /** Started ticks and scheduled runs belong to each other one to one. */
  ghost predicate Linked(b: Book) {
    && (forall i :: 0 <= i < |b.events| ==> (b.events[i].status == Started <==> b.events[i].run.Some?))
    && (forall i :: 0 <= i < |b.events| && b.events[i].run.Some? ==>
          && b.events[i].run.value < |b.runs| && b.runs[b.events[i].run.value].trigger == Cron
          && b.runs[b.events[i].run.value].workflow == b.events[i].workflow)
    && (forall i, j :: 0 <= i < j < |b.events| && b.events[i].run.Some? ==> b.events[i].run != b.events[j].run)
    && (forall r: RunId :: r < |b.runs| && b.runs[r].trigger == Cron ==> exists i: EventId :: Causes(b, i, r))
  }

  /** Only an enabled queue keeps ticks pending; a schedule has a next tick exactly when it is enabled. */
  ghost predicate OnlyQueuesWait(b: Book) {
    && (forall i :: 0 <= i < |b.events| && b.events[i].status == Pending ==> Waits(b, b.events[i].workflow))
    && (forall w :: w in b.schedules ==> (b.schedules[w].enabled <==> b.schedules[w].next.Some?))
  }

  predicate Waits(b: Book, w: WorkflowId) {
    w in b.schedules && b.schedules[w].enabled && b.schedules[w].policy == Queue
  }

  ghost predicate Inv(b: Book) {
    TicksUnique(b) && OldestFirst(b) && Linked(b) && OnlyQueuesWait(b)
  }

  /** A decided event never changes again; a pending one keeps its tick. */
  ghost predicate EventsMove(o: Book, n: Book) {
    && |o.events| <= |n.events|
    && forall i :: 0 <= i < |o.events| ==>
         && n.events[i].workflow == o.events[i].workflow && n.events[i].at == o.events[i].at
         && (o.events[i].status != Pending ==> n.events[i] == o.events[i])
  }

  // ----- Edits, stops and runs -------------------------------------------------------------------------

  lemma DroppingKeeps(o: Book, n: Book, w: WorkflowId, why: Why)
    requires Inv(o) && n.events == DropPending(o.events, w, why) && n.runs == o.runs
    requires forall v :: v != w && v in o.schedules ==> v in n.schedules && n.schedules[v] == o.schedules[v]
    requires forall v :: v in n.schedules ==> (v == w || v in o.schedules) && (n.schedules[v].enabled <==>
                   n.schedules[v].next.Some?)
    ensures Inv(n) && EventsMove(o, n)
    ensures forall i :: 0 <= i < |n.events| && n.events[i].workflow == w ==> n.events[i].status != Pending
  {
    hide OldestFirst, TicksUnique, OnlyQueuesWait;
    LinksKept(o, n);
    DroppingOrders(o, n, w, why);
    DroppingWaits(o, n, w, why);
  }

  lemma DroppingOrders(o: Book, n: Book, w: WorkflowId, why: Why)
    requires OldestFirst(o) && TicksUnique(o) && n.events == DropPending(o.events, w, why)
    ensures OldestFirst(n) && TicksUnique(n)
  {
  }

  lemma DroppingWaits(o: Book, n: Book, w: WorkflowId, why: Why)
    requires OnlyQueuesWait(o) && n.events == DropPending(o.events, w, why)
    requires forall v :: v != w && v in o.schedules ==> v in n.schedules && n.schedules[v] == o.schedules[v]
    requires forall v :: v in n.schedules ==> (v == w || v in o.schedules) && (n.schedules[v].enabled <==>
                   n.schedules[v].next.Some?)
    ensures OnlyQueuesWait(n)
  {
  }

  /** Links survive whatever keeps the causes and the runs' workflow and trigger. */
  lemma LinksKept(o: Book, n: Book)
    requires Linked(o) && |n.events| >= |o.events| && |n.runs| == |o.runs|
    requires forall i ::
               0 <= i < |o.events| ==>
                 n.events[i].run == o.events[i].run && n.events[i].workflow == o.events[i].workflow
    requires forall i :: 0 <= i < |n.events| ==> (n.events[i].status == Started <==> n.events[i].run.Some?)
    requires forall i :: |o.events| <= i < |n.events| ==> n.events[i].run.None?
    requires forall r ::
               0 <= r < |o.runs| ==> n.runs[r].trigger == o.runs[r].trigger && n.runs[r].workflow == o.runs[r].workflow
    ensures Linked(n)
  {
    forall r: RunId | r < |n.runs| && n.runs[r].trigger == Cron ensures exists i: EventId :: Causes(n, i, r) {
      var i: EventId :| Causes(o, i, r);
      assert Causes(n, i, r);
    }
  }

  lemma SaveKeeps(cal: Calendar, b: Book, w: WorkflowId, cron: string, zone: string, enabled: bool, policy: Policy,
                  at: Time)
    requires Inv(b)
    ensures var n := SaveSchedule(cal, b, w, cron, zone, enabled, policy, at).0; Inv(n) && EventsMove(b, n)
  {
    var r := SaveSchedule(cal, b, w, cron, zone, enabled, policy, at);
    if r.1 {
      DroppingKeeps(b, r.0, w, ScheduleChanged);
    }
  }

  lemma StopKeeps(b: Book, w: WorkflowId)
    requires Inv(b)
    ensures Inv(Stop(b, w).0) && EventsMove(b, Stop(b, w).0)
  {
    var r := Stop(b, w);
    if r.1 {
      DroppingKeeps(b, r.0, w, WorkflowStopped);
    }
  }

  lemma RunsKeep(b: Book, n: Book)
    requires Inv(b) && n.events == b.events && n.schedules == b.schedules && |n.runs| >= |b.runs|
    requires forall r ::
               0 <= r < |b.runs| ==> n.runs[r].trigger == b.runs[r].trigger && n.runs[r].workflow == b.runs[r].workflow
    requires forall r :: |b.runs| <= r < |n.runs| ==> n.runs[r].trigger == Manual
    ensures Inv(n) && EventsMove(b, n)
  {
    forall r: RunId | r < |n.runs| && n.runs[r].trigger == Cron ensures exists i: EventId :: Causes(n, i, r) {
      var i: EventId :| Causes(b, i, r);
      assert Causes(n, i, r);
    }
  }

  // ----- Dispatching -------------------------------------------------------------------------------------

  /** Everything but the promise that only queues wait: the state between taking a due tick and deciding. */
  ghost predicate MidInv(b: Book, w: WorkflowId) {
    && TicksUnique(b) && OldestFirst(b) && Linked(b)
    && (forall i ::
          0 <= i < |b.events| && b.events[i].status == Pending ==>
            Waits(b, b.events[i].workflow) || b.events[i].workflow == w)
    && (forall v :: v in b.schedules ==> (b.schedules[v].enabled <==> b.schedules[v].next.Some?))
  }

  lemma TakeKeeps(b: Book, w: WorkflowId, next: Time)
    requires Inv(b) && w in b.schedules && b.schedules[w].next.Some?
    ensures MidInv(TakeDue(b, w, next), w) && EventsMove(b, TakeDue(b, w, next))
    ensures !Waits(b, w) ==> forall i, j ::
              PendingAt(TakeDue(b, w, next), w, i) && PendingAt(TakeDue(b, w, next), w, j) ==> i == j
  {
    hide OldestFirst, TicksUnique, HasTick;
    var n := TakeDue(b, w, next);
    TakeOrders(b, w, next);
    LinksKept(b, n);
  }

  lemma TakeOrders(b: Book, w: WorkflowId, next: Time)
    requires TicksUnique(b) && OldestFirst(b) && w in b.schedules && b.schedules[w].next.Some?
    ensures TicksUnique(TakeDue(b, w, next)) && OldestFirst(TakeDue(b, w, next))
  {
  }

  lemma DecideKeeps(b: Book, w: WorkflowId, valid: bool)
    requires MidInv(b, w) && w in b.schedules && b.schedules[w].enabled
    requires b.schedules[w].policy == Skip ==> forall i, j :: PendingAt(b, w, i) && PendingAt(b, w, j) ==> i == j
    ensures var n := Decide(b, w, b.schedules[w].policy, valid); Inv(n) && EventsMove(b, n)
  {
    hide OldestFirst, TicksUnique, OnlyQueuesWait;
    DecideWaits(b, w, valid);
    var found := FirstPending(b, w, 0);
    if found.Some? {
      var n := Decide(b, w, b.schedules[w].policy, valid);
      OrderAfterDecision(b, n, w, found.value);
      if HasActive(b, w) || !CanStart(b, w, valid) {
        LinksKept(b, n);
      } else {
        LinkedAfterStart(b, w, valid, found.value);
      }
    }
  }

  /** After the decision only queues wait: a skipping schedule had one pending tick at most. */
  lemma DecideWaits(b: Book, w: WorkflowId, valid: bool)
    requires MidInv(b, w) && w in b.schedules && b.schedules[w].enabled
    requires b.schedules[w].policy == Skip ==> forall i, j :: PendingAt(b, w, i) && PendingAt(b, w, j) ==> i == j
    ensures OnlyQueuesWait(Decide(b, w, b.schedules[w].policy, valid))
  {
    hide OldestFirst, TicksUnique, Linked;
    var n := Decide(b, w, b.schedules[w].policy, valid);
    forall k | 0 <= k < |n.events| && n.events[k].status == Pending ensures Waits(n, n.events[k].workflow) {
      assert PendingAt(b, n.events[k].workflow, k);
    }
  }

  /** Deciding the oldest pending tick keeps the order. */
  lemma OrderAfterDecision(b: Book, n: Book, w: WorkflowId, i: EventId)
    requires MidInv(b, w) && FirstPending(b, w, 0) == Some(i)
    requires |n.events| == |b.events| && forall j :: 0 <= j < |b.events| && j != i ==> n.events[j] == b.events[j]
    requires n.events[i].workflow == w && n.events[i].at == b.events[i].at
    ensures OldestFirst(n) && TicksUnique(n)
  {
    forall j, k | 0 <= j < k < |n.events| && n.events[j].workflow == n.events[k].workflow
        && n.events[j].status == Pending ensures n.events[k].status == Pending {
      assert j < i ==> !PendingAt(b, w, j);
      assert PendingAt(b, w, i);
    }
  }

  lemma LinkedAfterStart(b: Book, w: WorkflowId, valid: bool, i: EventId)
    requires Linked(b) && w in b.schedules && FirstPending(b, w, 0) == Some(i) && CanStart(b, w, valid)
    requires !HasActive(b, w)
    ensures Linked(Decide(b, w, b.schedules[w].policy, valid))
  {
    var n := Decide(b, w, b.schedules[w].policy, valid);
    assert n.runs == AddRun(b, w, Cron).runs && n.events
        == b.events[i := b.events[i].(status := Started, run := Some(|b.runs|))];
    CauseOfNewRun(b, n, w, i);
  }

  /** The new run is caused by the tick that started it; older runs keep their cause. */
  lemma CauseOfNewRun(b: Book, n: Book, w: WorkflowId, i: EventId)
    requires Linked(b) && i < |b.events| && b.events[i].status == Pending && b.events[i].workflow == w
    requires n.runs == AddRun(b, w, Cron).runs
    requires n.events == b.events[i := b.events[i].(status := Started, run := Some(|b.runs|))]
    ensures Linked(n)
  {
    assert b.events[i].run.None?;
    forall r: RunId | r < |n.runs| && n.runs[r].trigger == Cron ensures exists k: EventId :: Causes(n, k, r) {
      if r < |b.runs| {
        var k: EventId :| Causes(b, k, r);
        assert Causes(n, k, r);
      } else {
        assert Causes(n, i, r);
      }
    }
  }

  lemma DispatchKeeps(cal: Calendar, b: Book, w: WorkflowId, at: Time, valid: bool)
    requires Inv(b) && Eligible(b, w, at)
    ensures var n := Dispatch(cal, b, w, at, valid).0; Inv(n) && EventsMove(b, n)
  {
    hide TakeDue, Decide;
    var s := b.schedules[w];
    if DueAt(s, at) {
      var next := cal(s.cron, s.zone, Later(s.next.value, at));
      if next.Some? {
        TakeKeeps(b, w, next.value);
        TakeShape(b, w, next.value);
        DecideKeeps(TakeDue(b, w, next.value), w, valid);
      }
    } else {
      QuietSkips(b, w);
      DecideKeeps(b, w, valid);
    }
  }

  lemma TakeShape(b: Book, w: WorkflowId, next: Time)
    requires w in b.schedules && b.schedules[w].next.Some?
    ensures var n := TakeDue(b, w, next);
            && w in n.schedules && n.schedules[w].enabled == b.schedules[w].enabled
            && n.schedules[w].policy == b.schedules[w].policy
            && n.runs == b.runs && n.workflows == b.workflows
  {
  }

  lemma QuietSkips(b: Book, w: WorkflowId)
    requires Inv(b) && w in b.schedules
    ensures MidInv(b, w) && (b.schedules[w].policy == Skip ==> forall i :: !PendingAt(b, w, i))
  {
  }

  lemma StepKeeps(cal: Calendar, b: Book, a: Action)
    requires Inv(b)
    ensures Inv(Next(cal, b, a)) && EventsMove(b, Next(cal, b, a))
  {
    hide Inv, Dispatch, SaveSchedule, Stop;
    match a
    case Create(w) => WorkflowsAside(b, Next(cal, b, a));
    case Publish(w) => WorkflowsAside(b, Next(cal, b, a));
    case Save(w, cron, zone, enabled, policy, at) => SaveKeeps(cal, b, w, cron, zone, enabled, policy, at);
    case Halt(w) => StopKeeps(b, w);
    case Start(w, valid) => RunsKeep(b, Next(cal, b, a));
    case Tick(w, at, valid) => if Eligible(b, w, at) { DispatchKeeps(cal, b, w, at, valid); }
    case RunEnds(r) => RunsKeep(b, Next(cal, b, a));
    case RunRetried(r) => RunsKeep(b, Next(cal, b, a));
  }

  lemma WorkflowsAside(b: Book, n: Book)
    requires Inv(b) && n == b.(workflows := n.workflows)
    ensures Inv(n)
  {
    LinksKept(b, n);
  }

  lemma {:induction false} InvAlways(cal: Calendar, acts: seq<Action>)
    ensures Inv(Exec(cal, NOTHING, acts))
  {
    if acts != [] {
      InvAlways(cal, acts[..|acts| - 1]);
      StepKeeps(cal, Exec(cal, NOTHING, acts[..|acts| - 1]), acts[|acts| - 1]);
    }
  }

  // ----- What follows ------------------------------------------------------------------------------------

  /** In every run each tick of a workflow is one event, and its events are decided oldest first. */
  lemma TicksHappenOnceAndInOrder(cal: Calendar, acts: seq<Action>, i: EventId, j: EventId)
    ensures var b := Exec(cal, NOTHING, acts);
            i < j < |b.events| && b.events[i].workflow == b.events[j].workflow ==>
              b.events[i].at != b.events[j].at && (b.events[j].status != Pending ==> b.events[i].status != Pending)
  {
    InvAlways(cal, acts);
  }

  /** An event leaves pending once: from then on it stays what it is. */
  lemma {:induction false} DecisionsAreFinal(cal: Calendar, b: Book, acts: seq<Action>, i: EventId)
    requires Inv(b) && i < |b.events|
    ensures Inv(Exec(cal, b, acts)) && i < |Exec(cal, b, acts).events|
    ensures Exec(cal, b, acts).events[i].at == b.events[i].at
    ensures b.events[i].status != Pending ==> Exec(cal, b, acts).events[i] == b.events[i]
  {
    if acts != [] {
      DecisionsAreFinal(cal, b, acts[..|acts| - 1], i);
      StepKeeps(cal, Exec(cal, b, acts[..|acts| - 1]), acts[|acts| - 1]);
    }
  }

  /** Started ticks and scheduled runs correspond one to one. */
  lemma StartedTicksAreScheduledRuns(cal: Calendar, acts: seq<Action>)
    ensures var b := Exec(cal, NOTHING, acts);
            && (forall i: EventId :: i < |b.events| && b.events[i].status == Started ==>
                  exists r: RunId ::
                        Causes(b, i, r) && r < |b.runs| && b.runs[r].trigger == Cron
                        && b.runs[r].workflow == b.events[i].workflow)
            && (forall r: RunId :: r < |b.runs| && b.runs[r].trigger == Cron ==> exists i: EventId ::
                  Causes(b, i, r) && b.events[i].status == Started)
            && (forall i: EventId, j: EventId, r: RunId :: Causes(b, i, r) && Causes(b, j, r) ==> i == j)
  {
    InvAlways(cal, acts);
    var b := Exec(cal, NOTHING, acts);
    forall i: EventId | i < |b.events| && b.events[i].status == Started
      ensures exists r: RunId ::
                Causes(b, i, r) && r < |b.runs| && b.runs[r].trigger == Cron
                && b.runs[r].workflow == b.events[i].workflow
    {
      assert Causes(b, i, b.events[i].run.value);
    }
    forall r: RunId | r < |b.runs| && b.runs[r].trigger == Cron
      ensures exists i: EventId :: Causes(b, i, r) && b.events[i].status == Started
    {
      var i: EventId :| Causes(b, i, r);
    }
    forall i: EventId, j: EventId, r: RunId | Causes(b, i, r) && Causes(b, j, r) ensures i == j {
      assert b.events[i].run == b.events[j].run;
    }
  }

  /** A scheduled run is only ever created while its workflow has no active run. */
  lemma ScheduledRunsStartAlone(cal: Calendar, b: Book, a: Action, r: RunId)
    requires r < |Next(cal, b, a).runs| && |b.runs| <= r && Next(cal, b, a).runs[r].trigger == Cron
    ensures a.Tick? && !HasActive(b, a.w) && Next(cal, b, a).runs[r].workflow == a.w && r == |b.runs|
  {
    if a.Tick? && Eligible(b, a.w, a.at) && DueAt(b.schedules[a.w], a.at) {
      var next := cal(b.schedules[a.w].cron, b.schedules[a.w].zone, Later(b.schedules[a.w].next.value, a.at));
      if next.Some? {
        TakeShape(b, a.w, next.value);
        assert HasActive(TakeDue(b, a.w, next.value), a.w) == HasActive(b, a.w);
      }
    }
  }

  /** Under the skipping policy, and when a schedule is off, nothing stays pending between transactions. */
  lemma NothingLingers(cal: Calendar, acts: seq<Action>, w: WorkflowId, i: EventId)
    ensures var b := Exec(cal, NOTHING, acts);
            PendingAt(b, w, i) ==> w in b.schedules && b.schedules[w].enabled && b.schedules[w].policy == Queue
  {
    InvAlways(cal, acts);
  }

  /** The schedule has a time to move on to, if it is due. */
  predicate CanMoveOn(cal: Calendar, s: Schedule, at: Time) {
    DueAt(s, at) ==> cal(s.cron, s.zone, Later(s.next.value, at)).Some?
  }

  /**
   Once the workflow has no active run, a waiting tick makes its schedule eligible, and a dispatch decides the oldest
   one exactly if a schedule that is due has a later time to move on to; otherwise it changes nothing at all.
   */
  lemma WaitingTickIsServed(cal: Calendar, acts: seq<Action>, w: WorkflowId, i: EventId, at: Time, valid: bool)
    requires var b := Exec(cal, NOTHING, acts); PendingAt(b, w, i) && !HasActive(b, w)
    ensures var b := Exec(cal, NOTHING, acts);
            && Eligible(b, w, at) && FirstPending(b, w, 0).Some?
            && var first := FirstPending(b, w, 0).value;
            && first <= i
            && var n := Next(cal, b, Tick(w, at, valid));
            && first < |n.events|
            && (n.events[first].status != Pending <==> CanMoveOn(cal, b.schedules[w], at))
            && (if CanMoveOn(cal, b.schedules[w], at)
                then n.events[first].status == if CanStart(b, w, valid) then Started else Failed
                else n == b)
  {
    InvAlways(cal, acts);
    DispatchServes(cal, Exec(cal, NOTHING, acts), w, at, valid);
  }

  lemma DispatchServes(cal: Calendar, b: Book, w: WorkflowId, at: Time, valid: bool)
    requires Eligible(b, w, at) && FirstPending(b, w, 0).Some? && !HasActive(b, w)
    ensures var first, n := FirstPending(b, w, 0).value, Dispatch(cal, b, w, at, valid).0;
            if CanMoveOn(cal, b.schedules[w], at)
            then first < |n.events| && n.events[first].status == if CanStart(b, w, valid) then Started else Failed
            else n == b
  {
    var s := b.schedules[w];
    if DueAt(s, at) && cal(s.cron, s.zone, Later(s.next.value, at)).Some? {
      TakeServes(b, w, cal(s.cron, s.zone, Later(s.next.value, at)).value);
    }
  }

  /** Taking the due tick changes neither the oldest pending one nor what is active. */
  lemma TakeServes(b: Book, w: WorkflowId, next: Time)
    requires w in b.schedules && b.schedules[w].next.Some? && FirstPending(b, w, 0).Some?
    ensures var n := TakeDue(b, w, next);
            && FirstPending(n, w, 0) == FirstPending(b, w, 0) && HasActive(n, w) == HasActive(b, w)
            && |n.events| >= |b.events| && n.runs == b.runs && n.workflows == b.workflows
            && forall k :: 0 <= k < |b.events| ==> n.events[k] == b.events[k]
  {
    var n, first := TakeDue(b, w, next), FirstPending(b, w, 0).value;
    assert PendingAt(n, w, first);
    forall k: EventId | k < first ensures !PendingAt(n, w, k) {
      assert !PendingAt(b, w, k);
    }
  }

  /** The calendar names no time after `at` any more. */
  ghost predicate Ended(cal: Calendar, s: Schedule, at: Time) {
    forall t: Time :: t >= at ==> cal(s.cron, s.zone, t).None?
  }

  /** The workflow has the same schedule and the same events, decided ones and others. */
  ghost predicate Stands(b: Book, n: Book, w: WorkflowId) {
    && w in b.schedules && w in n.schedules && n.schedules[w] == b.schedules[w] && |b.events| <= |n.events|
    && (forall i :: 0 <= i < |b.events| && b.events[i].workflow == w ==> n.events[i] == b.events[i])
    && (forall i :: 0 <= i < |n.events| && n.events[i].workflow == w ==>
          i < |b.events| && b.events[i].workflow == w)
  }

  /**
   A schedule that is due and has no later time never moves on: its due tick is never recorded and ticks that wait
   wait for ever, whatever dispatchers and runs do from then on, until the schedule is edited or its workflow stopped.
   */
  lemma {:induction false} EndedCalendarHoldsTicks(cal: Calendar, b: Book, acts: seq<Action>, w: WorkflowId, at: Time)
    requires w in b.schedules && DueAt(b.schedules[w], at) && Ended(cal, b.schedules[w], at)
    requires forall k :: 0 <= k < |acts| ==>
               !((acts[k].Save? || acts[k].Halt?) && acts[k].w == w) && (acts[k].Tick? ==> acts[k].at >= at)
    ensures Stands(b, Exec(cal, b, acts), w)
    decreases |acts|
  {
    hide Next, Ended;
    if acts != [] {
      var front := acts[..|acts| - 1];
      EndedCalendarHoldsTicks(cal, b, front, w, at);
      EndedStep(cal, Exec(cal, b, front), acts[|acts| - 1], w, at);
    }
  }

  lemma EndedStep(cal: Calendar, b: Book, a: Action, w: WorkflowId, at: Time)
    requires w in b.schedules && DueAt(b.schedules[w], at) && Ended(cal, b.schedules[w], at)
    requires !((a.Save? || a.Halt?) && a.w == w) && (a.Tick? ==> a.at >= at)
    ensures Stands(b, Next(cal, b, a), w)
  {
    hide Dispatch;
    if a.Tick? && Eligible(b, a.w, a.at) {
      if a.w == w {
        DispatchStops(cal, b, w, a.at, a.valid);
      } else {
        OtherDispatch(cal, b, a.w, a.at, a.valid, w);
      }
    }
  }

  lemma OtherDispatch(cal: Calendar, b: Book, v: WorkflowId, at: Time, valid: bool, w: WorkflowId)
    requires Eligible(b, v, at) && v != w && w in b.schedules
    ensures Stands(b, Dispatch(cal, b, v, at, valid).0, w)
  {
    hide Decide, TakeDue;
    var s := b.schedules[v];
    if !DueAt(s, at) {
      OtherDecides(b, v, s.policy, valid, w);
    } else if cal(s.cron, s.zone, Later(s.next.value, at)).Some? {
      var n := TakeDue(b, v, cal(s.cron, s.zone, Later(s.next.value, at)).value);
      OtherTakes(b, v, cal(s.cron, s.zone, Later(s.next.value, at)).value, w);
      OtherDecides(n, v, s.policy, valid, w);
    }
  }

  lemma OtherTakes(b: Book, v: WorkflowId, next: Time, w: WorkflowId)
    requires v in b.schedules && b.schedules[v].next.Some? && v != w && w in b.schedules
    ensures Stands(b, TakeDue(b, v, next), w)
  {
  }

  lemma OtherDecides(b: Book, v: WorkflowId, policy: Policy, valid: bool, w: WorkflowId)
    requires v != w && w in b.schedules
    ensures Stands(b, Decide(b, v, policy, valid), w)
  {
  }

  lemma DispatchStops(cal: Calendar, b: Book, w: WorkflowId, at: Time, valid: bool)
    requires Eligible(b, w, at) && !CanMoveOn(cal, b.schedules[w], at)
    ensures Dispatch(cal, b, w, at, valid) == (b, false)
  {
  }

  /** A calendar with the two times 5 and 10. */
  function TwoTimes(cron: string, zone: string, t: Time): Option<Time> {
    if t < 5 then Some(5) else if t < 10 then Some(10) else None
  }

  /** The tick of time 5 waits beside a manual run; the run ends after time 10, when the calendar has ended. */
  const LAST_TICK_WAITS := [
    Create(0), Publish(0), Save(0, "cron", "UTC", true, Queue, 0), Start(0, true), Tick(0, 5, true), RunEnds(0)]

  /** In this run of the scheduler a tick waits although nothing is active, and no dispatch ever decides it. */
  lemma AWaitingTickIsNeverServed(more: seq<Action>)
    requires forall k :: 0 <= k < |more| ==>
               !((more[k].Save? || more[k].Halt?) && more[k].w == 0) && (more[k].Tick? ==> more[k].at >= 10)
    ensures var b := Exec(TwoTimes, NOTHING, LAST_TICK_WAITS);
            && PendingAt(b, 0, 0) && !HasActive(b, 0)
            && PendingAt(Exec(TwoTimes, b, more), 0, 0)
  {
    LastTickWaits();
    EndedCalendarHoldsTicks(TwoTimes, Exec(TwoTimes, NOTHING, LAST_TICK_WAITS), more, 0, 10);
    hide Exec, Next;
  }

  lemma LastTickWaits()
    ensures var b := Exec(TwoTimes, NOTHING, LAST_TICK_WAITS);
            && b.events == [Event(0, 5, Pending, None, NoReason)] && b.runs == [Run(0, Manual, false)]
            && b.schedules == map[0 := Schedule("cron", "UTC", true, Queue, Some(10), Some(5))]
  {
    var a := LAST_TICK_WAITS;
    var b1 := Next(TwoTimes, NOTHING, a[0]);
    var b2 := Next(TwoTimes, b1, a[1]);
    var b3 := Next(TwoTimes, b2, a[2]);
    var b4 := Next(TwoTimes, b3, a[3]);
    assert b4 == Book(map[0 := Workflow(true, true)], map[0 := Schedule("cron", "UTC", true, Queue, Some(5), None)], [],
                      [Run(0, Manual, true)]);
    FifthIsTaken(b4);
    ExecSix(TwoTimes, NOTHING, a);
  }

  lemma FifthIsTaken(b: Book)
    requires b == Book(map[0 := Workflow(true, true)], map[0 := Schedule("cron", "UTC", true, Queue, Some(5), None)],
                       [], [Run(0, Manual, true)])
    ensures Next(TwoTimes, b, Tick(0, 5, true))
            == b.(schedules := map[0 := Schedule("cron", "UTC", true, Queue, Some(10), Some(5))],
                  events := [Event(0, 5, Pending, None, NoReason)])
  {
    var n := TakeDue(b, 0, 10);
    assert n.events == [Event(0, 5, Pending, None, NoReason)] && b.runs[0].active && HasActive(n, 0);
    assert PendingAt(n, 0, 0) && FirstPending(n, 0, 0) == Some(0);
  }

  lemma ExecSix(cal: Calendar, b: Book, a: seq<Action>)
    requires |a| == 6
    ensures Exec(cal, b, a)
            == Next(cal, Next(cal, Next(cal, Next(cal, Next(cal, Next(cal, b, a[0]), a[1]), a[2]), a[3]), a[4]), a[5])
  {
    hide Next;
    assert a[..6] == a && a[..6][..5] == a[..5] && a[..5][..4] == a[..4] && a[..4][..3] == a[..3];
    assert a[..3][..2] == a[..2] && a[..2][..1] == a[..1] && a[..1][..0] == [];
    assert Exec(cal, b, a[..1]) == Next(cal, b, a[0]) && Exec(cal, b, a[..2]) == Next(cal, Exec(cal, b, a[..1]), a[1]);
    assert Exec(cal, b, a[..3]) == Next(cal, Exec(cal, b, a[..2]), a[2]);
    assert Exec(cal, b, a[..4]) == Next(cal, Exec(cal, b, a[..3]), a[3]);
    assert Exec(cal, b, a[..5]) == Next(cal, Exec(cal, b, a[..4]), a[4]);
  }

  // ----- Why ticks are skipped ---------------------------------------------------------------------------

  /** An edit or a stop of the workflow that goes through. */
  predicate OnRequest(cal: Calendar, b: Book, a: Action, w: WorkflowId) {
    || (a.Save? && a.w == w && SaveSchedule(cal, b, w, a.cron, a.zone, a.enabled, a.policy, a.at).1)
    || (a.Halt? && a.w == w && Stop(b, w).1)
  }

  /** A dispatch of the workflow beside an active run, while its schedule says to skip. */
  predicate BesideActiveRun(b: Book, a: Action, w: WorkflowId) {
    a.Tick? && a.w == w && Eligible(b, w, a.at) && HasActive(b, w) && b.schedules[w].policy == Skip
  }

  predicate SkippedAt(b: Book, i: EventId) {
    i < |b.events| && b.events[i].status == Skipped
  }

  /** Exactly when a step skips a tick that is pending. */
  lemma TickIsSkippedIff(cal: Calendar, b: Book, a: Action, w: WorkflowId, i: EventId)
    requires PendingAt(b, w, i)
    ensures SkippedAt(Next(cal, b, a), i) <==>
              || OnRequest(cal, b, a, w)
              || (BesideActiveRun(b, a, w) && FirstPending(b, w, 0) == Some(i) && CanMoveOn(cal, b.schedules[w], a.at))
  {
    hide Dispatch;
    if a.Tick? && Eligible(b, a.w, a.at) {
      DispatchSkipsIff(cal, b, a.w, a.at, a.valid, i);
    }
  }

  lemma DispatchSkipsIff(cal: Calendar, b: Book, v: WorkflowId, at: Time, valid: bool, i: EventId)
    requires Eligible(b, v, at) && i < |b.events| && b.events[i].status == Pending
    ensures SkippedAt(Dispatch(cal, b, v, at, valid).0, i) <==>
              && HasActive(b, v) && b.schedules[v].policy == Skip && FirstPending(b, v, 0) == Some(i)
              && CanMoveOn(cal, b.schedules[v], at)
  {
    hide Decide;
    var s := b.schedules[v];
    if !DueAt(s, at) {
      DecideSkipsIff(b, v, s.policy, valid, i);
    } else if cal(s.cron, s.zone, Later(s.next.value, at)).Some? {
      var next := cal(s.cron, s.zone, Later(s.next.value, at)).value;
      DecideSkipsIff(TakeDue(b, v, next), v, s.policy, valid, i);
      if FirstPending(b, v, 0).Some? {
        TakeServes(b, v, next);
      } else {
        assert HasActive(TakeDue(b, v, next), v) == HasActive(b, v);
        assert !PendingAt(b, v, i);
      }
    }
  }

  lemma DecideAddsNoTick(b: Book, w: WorkflowId, policy: Policy, valid: bool)
    ensures var n := Decide(b, w, policy, valid);
            && n.schedules == b.schedules && |n.events| == |b.events|
            && forall i :: 0 <= i < |b.events| ==> n.events[i].workflow == b.events[i].workflow
  {
  }

  lemma DecideSkipsIff(b: Book, v: WorkflowId, policy: Policy, valid: bool, i: EventId)
    requires i < |b.events|
    ensures SkippedAt(Decide(b, v, policy, valid), i) <==>
              SkippedAt(b, i) || (FirstPending(b, v, 0) == Some(i) && HasActive(b, v) && policy == Skip)
    ensures |Decide(b, v, policy, valid).events| == |b.events|
    ensures Decide(b, v, policy, valid).events[i].workflow == b.events[i].workflow
  {
  }

  /** Whatever a step skips, be it new or decided before, has one of the two causes at that moment. */
  lemma StepSkips(cal: Calendar, b: Book, a: Action, i: EventId)
    requires SkippedAt(Next(cal, b, a), i) && !SkippedAt(b, i)
    ensures var w := Next(cal, b, a).events[i].workflow; OnRequest(cal, b, a, w) || BesideActiveRun(b, a, w)
  {
    hide Dispatch;
    if a.Tick? && Eligible(b, a.w, a.at) {
      DispatchSkips(cal, b, a.w, a.at, a.valid, i);
    }
  }

  lemma DispatchSkips(cal: Calendar, b: Book, v: WorkflowId, at: Time, valid: bool, i: EventId)
    requires Eligible(b, v, at) && SkippedAt(Dispatch(cal, b, v, at, valid).0, i) && !SkippedAt(b, i)
    ensures Dispatch(cal, b, v, at, valid).0.events[i].workflow == v && HasActive(b, v) && b.schedules[v].policy == Skip
  {
    hide Decide;
    var s := b.schedules[v];
    if !DueAt(s, at) {
      DecideAddsNoTick(b, v, s.policy, valid);
      DecideSkipsIff(b, v, s.policy, valid, i);
    } else if cal(s.cron, s.zone, Later(s.next.value, at)).Some? {
      var n := TakeDue(b, v, cal(s.cron, s.zone, Later(s.next.value, at)).value);
      DecideAddsNoTick(n, v, s.policy, valid);
      DecideSkipsIff(n, v, s.policy, valid, i);
      assert HasActive(n, v) == HasActive(b, v);
    }
  }

  /**
   In every history each skipped tick was skipped by an edit or a stop of its workflow, or by a dispatch beside an
   active run while the schedule said to skip.  So as long as it says to queue, ticks are skipped on request only,
   whatever it has said before.
   */
  lemma {:induction false} QueuedTicksAreSkippedOnlyOnRequest(cal: Calendar, acts: seq<Action>, i: EventId)
    returns (k: nat)
    requires SkippedAt(Exec(cal, NOTHING, acts), i)
    ensures k < |acts|
    ensures var b, w := Exec(cal, NOTHING, acts[..k]), Exec(cal, NOTHING, acts).events[i].workflow;
            && !SkippedAt(b, i) && SkippedAt(Exec(cal, NOTHING, acts[..k + 1]), i)
            && (OnRequest(cal, b, acts[k], w) || BesideActiveRun(b, acts[k], w))
            && (w in b.schedules && b.schedules[w].policy == Queue ==> OnRequest(cal, b, acts[k], w))
    decreases |acts|
  {
    hide Next, OnRequest;
    var front, a := acts[..|acts| - 1], acts[|acts| - 1];
    var b := Exec(cal, NOTHING, front);
    if SkippedAt(b, i) {
      k := QueuedTicksAreSkippedOnlyOnRequest(cal, front, i);
      assert front[..k] == acts[..k] && front[..k + 1] == acts[..k + 1] && front[k] == acts[k];
      EventKeepsWorkflow(cal, b, a, i);
    } else {
      k := |acts| - 1;
      assert acts[..k + 1] == acts;
      StepSkips(cal, b, a, i);
    }
  }

  lemma EventKeepsWorkflow(cal: Calendar, b: Book, a: Action, i: EventId)
    requires i < |b.events|
    ensures i < |Next(cal, b, a).events| && Next(cal, b, a).events[i].workflow == b.events[i].workflow
  {
  }

  // ----- With clocks that do not lag ----------------------------------------------------------------------

  /** The times that processes read never run backwards. */
  predicate ClocksAgree(acts: seq<Action>) {
    forall j, k :: 0 <= j <= k < |acts| && ReadsClock(acts[j]) && ReadsClock(acts[k]) ==> acts[j].at <= acts[k].at
  }

  predicate ReadsClock(a: Action) {
    a.Save? || a.Tick?
  }

  function LastReading(acts: seq<Action>): Time {
    if acts == [] then 0
    else if ReadsClock(acts[|acts| - 1]) then acts[|acts| - 1].at
    else LastReading(acts[..|acts| - 1])
  }

  /** Ticks lie in the past, in the order of their events, and before the next one. */
  ghost predicate Ascending(b: Book, now: Time) {
    && (forall i :: 0 <= i < |b.events| ==> b.events[i].at <= now)
    && (forall i, j ::
          0 <= i < j < |b.events| && b.events[i].workflow == b.events[j].workflow ==> b.events[i].at < b.events[j].at)
    && (forall i ::
          0 <= i < |b.events| && b.events[i].workflow in b.schedules && b.schedules[b.events[i].workflow].next.Some? ==>
          b.events[i].at < b.schedules[b.events[i].workflow].next.value)
  }

  lemma AscendingStep(cal: Calendar, b: Book, a: Action, now: Time)
    requires StrictlyLater(cal) && Ascending(b, now) && (ReadsClock(a) ==> now <= a.at)
    ensures Ascending(Next(cal, b, a), if ReadsClock(a) then a.at else now)
  {
    hide Dispatch;
    match a
    case Tick(w, at, valid) => if Eligible(b, w, at) { AscendingDispatch(cal, b, w, at, valid, now); }
    case _ =>
  }

  lemma AscendingDecide(b: Book, w: WorkflowId, policy: Policy, valid: bool, now: Time)
    requires Ascending(b, now)
    ensures Ascending(Decide(b, w, policy, valid), now)
  {
  }

  lemma AscendingDispatch(cal: Calendar, b: Book, w: WorkflowId, at: Time, valid: bool, now: Time)
    requires StrictlyLater(cal) && Ascending(b, now) && now <= at && Eligible(b, w, at)
    ensures Ascending(Dispatch(cal, b, w, at, valid).0, at)
  {
    hide Decide;
    var s := b.schedules[w];
    if DueAt(s, at) && cal(s.cron, s.zone, Later(s.next.value, at)).Some? {
      var next := cal(s.cron, s.zone, Later(s.next.value, at)).value;
      assert !HasTick(b, w, s.next.value);
      assert Ascending(TakeDue(b, w, next), at);
      AscendingDecide(TakeDue(b, w, next), w, s.policy, valid, at);
    } else {
      AscendingDecide(b, w, s.policy, valid, now);
    }
  }

  /** With agreeing clocks ticks are recorded and decided in the order of their times, and none is ever met twice. */
  lemma {:induction false} TicksAscend(cal: Calendar, acts: seq<Action>)
    requires StrictlyLater(cal) && ClocksAgree(acts)
    ensures Ascending(Exec(cal, NOTHING, acts), LastReading(acts))
  {
    if acts != [] {
      var front, a := acts[..|acts| - 1], acts[|acts| - 1];
      assert forall j :: 0 <= j < |front| ==> front[j] == acts[j];
      TicksAscend(cal, front);
      LastReadingIsRead(front);
      AscendingStep(cal, Exec(cal, NOTHING, front), a, LastReading(front));
    }
  }

  lemma {:induction false} LastReadingIsRead(acts: seq<Action>)
    ensures LastReading(acts) == 0 || exists j ::
              0 <= j < |acts| && ReadsClock(acts[j]) && acts[j].at == LastReading(acts)
  {
    if acts != [] && !ReadsClock(acts[|acts| - 1]) {
      var front := acts[..|acts| - 1];
      LastReadingIsRead(front);
      if LastReading(front) != 0 {
        var j :| 0 <= j < |front| && ReadsClock(front[j]) && front[j].at == LastReading(front);
        assert acts[j] == front[j];
      }
    }
  }

  // ----- Catching up -------------------------------------------------------------------------------------

  /** At most one tick of the workflow is new, and if there is one the schedule is past `at`. */
  ghost predicate CaughtUp(o: Book, n: Book, w: WorkflowId, at: Time) {
    && |o.events| <= |n.events|
    && (forall i, j ::
          |o.events| <= i < |n.events| && |o.events| <= j < |n.events|
          && n.events[i].workflow == w && n.events[j].workflow == w ==>
            i == j)
    && (forall i ::
          |o.events| <= i < |n.events| && n.events[i].workflow == w && w in n.schedules ==>
            !DueAt(n.schedules[w], at))
  }

  /** Taking a due tick adds at most one event, of that workflow, and moves its schedule past the present. */
  lemma DispatchTakes(cal: Calendar, b: Book, v: WorkflowId, at: Time, valid: bool)
    requires StrictlyLater(cal) && Eligible(b, v, at)
    ensures var n := Dispatch(cal, b, v, at, valid).0;
            && |b.events| <= |n.events| <= |b.events| + 1 && n.schedules.Keys == b.schedules.Keys
            && (forall i :: 0 <= i < |b.events| ==> n.events[i].workflow == b.events[i].workflow)
            && (forall w :: w in b.schedules && w != v ==> n.schedules[w] == b.schedules[w])
            && (|n.events| > |b.events| ==>
                  n.events[|b.events|].workflow == v && DueAt(b.schedules[v], at) && !DueAt(n.schedules[v], at))
            && (!DueAt(b.schedules[v], at) ==> !DueAt(n.schedules[v], at))
  {
    hide Decide;
    var s := b.schedules[v];
    if DueAt(s, at) {
      var next := cal(s.cron, s.zone, Later(s.next.value, at));
      if next.Some? {
        DecideAddsNoTick(TakeDue(b, v, next.value), v, s.policy, valid);
      }
    } else {
      DecideAddsNoTick(b, v, s.policy, valid);
    }
  }

  lemma CatchUpStep(cal: Calendar, o: Book, n: Book, a: Action, w: WorkflowId, at: Time)
    requires StrictlyLater(cal) && CaughtUp(o, n, w, at)
    requires !(a.Save? && a.w == w) && (a.Tick? ==> a.at == at)
    ensures CaughtUp(o, Next(cal, n, a), w, at)
  {
    hide Dispatch;
    if a.Tick? && Eligible(n, a.w, at) {
      DispatchTakes(cal, n, a.w, at, a.valid);
    }
  }

  /**
   After downtime one tick catches up: however often the dispatchers look at one moment, and whatever else
   happens but an edit of the schedule, a workflow gets at most one new tick, and then its next one lies ahead.
   */
  lemma {:induction false} OneCatchUpTick(cal: Calendar, b: Book, acts: seq<Action>, w: WorkflowId, at: Time)
    requires StrictlyLater(cal)
    requires forall k :: 0 <= k < |acts| ==> !(acts[k].Save? && acts[k].w == w) && (acts[k].Tick? ==> acts[k].at == at)
    ensures CaughtUp(b, Exec(cal, b, acts), w, at)
    decreases |acts|
  {
    hide Next, CaughtUp;
    if acts == [] {
      NothingNew(b, w, at);
    } else {
      var front := acts[..|acts| - 1];
      OneCatchUpTick(cal, b, front, w, at);
      CatchUpStep(cal, b, Exec(cal, b, front), acts[|acts| - 1], w, at);
    }
  }

  lemma NothingNew(b: Book, w: WorkflowId, at: Time)
    ensures CaughtUp(b, b, w, at)
  {
  }
}
