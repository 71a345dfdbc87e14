/**
 Fencing over whole runs of the system: an attempt that has lost its task never writes again, so the
 writes to a task appear in the order of its attempts.
 */
module Fencing {
  import opened Common
  import opened TaskModel
  import opened TaskSystem
  import opened Ownership
  import opened Protocol

  /** Passing the fence means being the task's one running attempt; no two claims pass it together. */
  lemma FenceIsTheRunningAttempt(s: Sys, c: Claim, d: Claim)
    requires Inv(s) && Fenced(s.db, c)
    ensures Holds(s.db, c)
    ensures forall n: nat :: AttemptLooksActive(s.db, c.task, n) <==> n == c.no
    ensures Fenced(s.db, d) && d.task == c.task ==> d == c
  {
    assert Owned(s.db, c.task);
  }

  lemma RowLossIsKept(now: Time, later: Time, o: Task, n: Task, retried: bool, paged: bool, worker: string, no: nat)
    requires TaskMove(now, o, n, retried, paged) && now <= later && no <= o.attemptCount
    requires n.status == TaskRunning && n.owner == worker && n.attemptCount == no && n.leaseUntil.Some?
    requires n.leaseUntil.value > later
    ensures o.status == TaskRunning && o.owner == worker && o.attemptCount == no && o.leaseUntil.Some?
    ensures o.leaseUntil.value > now
  {
  }

  lemma LossIsKept(o: Db, n: Db, f: Footprint, c: Claim)
    requires DbInv(o) && DbMove(o, n, f) && Holds(o, c) && !Fenced(o, c)
    ensures Holds(n, c) && !Fenced(n, c)
  {
    HoldingStays(o, n, c);
    ClaimedNumber(o, c.task, c.no);
    RowMoved(o, n, f, c.task);
    if Fenced(n, c) {
      RowLossIsKept(o.now, n.now, o.tasks[c.task], n.tasks[c.task], f.retried == Some(c.task), f.paged == Some(c.task),
                    c.worker, c.no);
    }
  }

  /** Lease lost, reclaimed, cancelled, expired or ended: the attempt stays outside the fence in every later state. */
  lemma {:induction false} LostFenceStaysLost(s: Sys, acts: seq<Action>, c: Claim)
    requires Inv(s) && Holds(s.db, c) && !Fenced(s.db, c)
    ensures Holds(Exec(s, acts).db, c) && !Fenced(Exec(s, acts).db, c)
    decreases |acts|
  {
    if acts != [] {
      var before := Exec(s, acts[..|acts| - 1]);
      LostFenceStaysLost(s, acts[..|acts| - 1], c);
      InvAlways(s, acts[..|acts| - 1]);
      StepKeepsInv(before, acts[|acts| - 1]);
      LossIsKept(before.db, Exec(s, acts).db, FootprintOf(before, acts[|acts| - 1]), c);
    }
  }

  // ----- Effects -----------------------------------------------------------------------------

  /** From `s` to `n` at most one write is committed, and only for the attempt that passes the fence. */
  ghost predicate WriteIsFenced(s: Sys, n: Sys) {
    n.effects == s.effects ||
    exists c: Claim, kind: EffectKind ::
      Fenced(s.db, c) && n.effects == s.effects + [Effect(c.task, c.no, kind)]
      && (kind == AttemptEnded ==>
            c.task in n.db.tasks && n.db.tasks[c.task].status != TaskRunning && n.db.tasks[c.task].attemptCount == c.no)
  }

  lemma EffectPassesFence(s: Sys, a: Action)
    requires Inv(s)
    ensures WriteIsFenced(s, Next(s, a))
  {
    if a.CommitComplete? || a.CommitFail? {
      EndingPassesFence(s, a);
    } else if a.ReservePage? || a.SaveDocument? || a.SaveRecords? || a.CreateChild? {
      WritePassesFence(s, a);
    } else {
      OthersLogNothing(s, a);
    }
  }

  lemma EndingPassesFence(s: Sys, a: Action)
    requires Inv(s) && (a.CommitComplete? || a.CommitFail?)
    ensures var n := Next(s, a);
            n.effects == s.effects ||
            exists c: Claim :: Fenced(s.db, c) && n.effects == s.effects + [Effect(c.task, c.no, AttemptEnded)]
              && c.task in n.db.tasks && n.db.tasks[c.task].status != TaskRunning
              && n.db.tasks[c.task].attemptCount == c.no
  {
    var n, pc := Next(s, a), At(s, a.p);
    if n.effects != s.effects {
      assert PcGrounded(s.db, pc);
      assert Fenced(s.db, pc.claim) && n.effects == s.effects + [Effect(pc.claim.task, pc.claim.no, AttemptEnded)];
    }
  }

  lemma WritePassesFence(s: Sys, a: Action)
    requires a.ReservePage? || a.SaveDocument? || a.SaveRecords? || a.CreateChild?
    ensures Next(s, a).effects == s.effects
            || (Fenced(s.db, a.claim) && exists kind: EffectKind ::
                  kind != AttemptEnded && Next(s, a).effects == s.effects + [Effect(a.claim.task, a.claim.no, kind)])
  {
    if a.CreateChild? {
      CreateChildShape(s.db, a.claim, a.step, a.input);
    }
    if Next(s, a).effects != s.effects {
      var e := Next(s, a).effects[|s.effects|];
      assert e.kind != AttemptEnded && Next(s, a).effects == s.effects + [Effect(a.claim.task, a.claim.no, e.kind)];
    }
  }

  lemma OthersLogNothing(s: Sys, a: Action)
    requires !(a.CommitComplete? || a.CommitFail? || a.ReservePage? || a.SaveDocument? || a.SaveRecords?
               || a.CreateChild?)
    ensures Next(s, a).effects == s.effects
  {
  }

  /** Effects of one task come in the order of its attempts, and nothing follows the end of an attempt. */
  ghost predicate InOrder(effects: seq<Effect>) {
    forall i, j :: 0 <= i < j < |effects| && effects[i].task == effects[j].task ==>
      effects[i].no <= effects[j].no && (effects[i].kind == AttemptEnded ==> effects[i].no < effects[j].no)
  }

  /** Every logged attempt is one the task has reached, and an ended one is over. */
  ghost predicate EffectsKnown(s: Sys) {
    forall e :: e in s.effects ==> EffectKnown(s.db, e)
  }

  ghost predicate EffectKnown(db: Db, e: Effect) {
    && e.task in db.tasks && e.no <= db.tasks[e.task].attemptCount
    && (e.kind == AttemptEnded && e.no == db.tasks[e.task].attemptCount ==> db.tasks[e.task].status != TaskRunning)
  }

  lemma EffectStaysKnown(o: Db, n: Db, f: Footprint, e: Effect)
    requires DbMove(o, n, f) && EffectKnown(o, e)
    ensures EffectKnown(n, e)
  {
    RowMoved(o, n, f, e.task);
  }

  lemma OneMoreInOrder(effects: seq<Effect>, e: Effect)
    requires InOrder(effects)
    requires forall x :: x in effects && x.task == e.task ==> x.no <= e.no && (x.kind == AttemptEnded ==> x.no < e.no)
    ensures InOrder(effects + [e])
  {
    assert forall i :: 0 <= i < |effects| ==> (effects + [e])[i] == effects[i] && effects[i] in effects;
  }

  lemma OrderIsKept(s: Sys, n: Sys, f: Footprint)
    requires InOrder(s.effects) && EffectsKnown(s) && DbMove(s.db, n.db, f) && WriteIsFenced(s, n)
    ensures InOrder(n.effects) && EffectsKnown(n)
  {
    forall e | e in s.effects ensures EffectKnown(n.db, e) {
      EffectStaysKnown(s.db, n.db, f, e);
    }
    if n.effects != s.effects {
      var c: Claim, kind: EffectKind :| Fenced(s.db, c) && n.effects == s.effects + [Effect(c.task, c.no, kind)]
        && (kind == AttemptEnded ==>
              c.task in n.db.tasks && n.db.tasks[c.task].status != TaskRunning
              && n.db.tasks[c.task].attemptCount == c.no);
      EffectStaysKnown(s.db, n.db, f, Effect(c.task, c.no, DocumentSaved));
      OneMoreInOrder(s.effects, Effect(c.task, c.no, kind));
      assert EffectKnown(n.db, Effect(c.task, c.no, kind));
    }
  }

  /** In every run of the system the writes to each task are ordered by attempt. */
  lemma {:induction false} WritesFollowAttemptOrder(acts: seq<Action>)
    ensures InOrder(Exec(Init(), acts).effects) && EffectsKnown(Exec(Init(), acts))
    decreases |acts|
  {
    if acts != [] {
      var front := acts[..|acts| - 1];
      WritesFollowAttemptOrder(front);
      InvInitially();
      InvAlways(Init(), front);
      var before, a := Exec(Init(), front), acts[|acts| - 1];
      StepKeepsInv(before, a);
      EffectPassesFence(before, a);
      OrderIsKept(before, Next(before, a), FootprintOf(before, a));
    }
  }

  /** After an attempt has lost its task, no document, child, record batch or ending of it ever commits. */
  lemma {:induction false} NothingCommitsAfterLoss(s: Sys, acts: seq<Action>, c: Claim)
    requires Inv(s) && Holds(s.db, c) && !Fenced(s.db, c)
    ensures var n := Exec(s, acts);
            && s.effects <= n.effects
            && forall i :: |s.effects| <= i < |n.effects| ==> !(n.effects[i].task == c.task && n.effects[i].no == c.no)
    decreases |acts|
  {
    hide Next, Inv, DbMove;
    if acts != [] {
      var before := Exec(s, acts[..|acts| - 1]);
      NothingCommitsAfterLoss(s, acts[..|acts| - 1], c);
      LostFenceStaysLost(s, acts[..|acts| - 1], c);
      InvAlways(s, acts[..|acts| - 1]);
      EffectPassesFence(before, acts[|acts| - 1]);
      if Exec(s, acts).effects != before.effects {
        var d: Claim, kind: EffectKind :| Fenced(before.db, d)
            && Exec(s, acts).effects == before.effects + [Effect(d.task, d.no, kind)];
        FenceIsTheRunningAttempt(before, d, c);
      }
    }
  }

  // ----- Decisions taken before the transaction ------------------------------------------------

  /**
   Fail decides on a row it read before its transaction, yet whenever its fenced update succeeds the
   task is queued again exactly when the failure is retryable and the row itself has attempts left.
   */
  lemma RetryDecisionIsCurrent(acts: seq<Action>, p: ProcId, retryAt: Time)
    requires At(Exec(Init(), acts), p).Failing?
    ensures var s := Exec(Init(), acts);
            var n := Next(s, CommitFail(p, retryAt));
            var pc := At(s, p);
            n.effects != s.effects ==>
              && pc.claim.task in s.db.tasks && pc.claim.task in n.db.tasks
              && var row := s.db.tasks[pc.claim.task];
              && row.attemptCount == pc.count && row.maxAttempts == pc.limit
              && n.db.tasks[pc.claim.task].status == if pc.retryable && row.attemptCount < row.maxAttempts
                 then TaskQueued else TaskDeadLetter
  {
    InvInitially();
    InvAlways(Init(), acts);
    DecisionIsCurrent(Exec(Init(), acts), p, retryAt);
    hide Exec, Next, Inv;
  }

  lemma DecisionIsCurrent(s: Sys, p: ProcId, retryAt: Time)
    requires Inv(s) && At(s, p).Failing?
    ensures var n, pc := Next(s, CommitFail(p, retryAt)), At(s, p);
            n.effects != s.effects ==>
              && pc.claim.task in s.db.tasks && pc.claim.task in n.db.tasks
              && var row := s.db.tasks[pc.claim.task];
              && row.attemptCount == pc.count && row.maxAttempts == pc.limit
              && n.db.tasks[pc.claim.task].status == if pc.retryable && row.attemptCount < row.maxAttempts
                 then TaskQueued else TaskDeadLetter
  {
    assert PcGrounded(s.db, At(s, p));
    hide DbInv;
  }
}
