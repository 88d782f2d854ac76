/** What the locker, its request tasks and the workers do when they sleep, wake, time out or are cancelled. */
module LockMoves {
  import B = Blocker
  import opened BlockerManager
  import L = BlockerLedger
  import opened LockProtocol
  import opened LockSafety
  import opened LockPlan
  import opened LockRuns

  /** A wakeup takes the token that it was, and nothing else of the blocker. */
  lemma WakeupsTakeTheirTokens(s: Sys, e: Event, id: nat)
    requires Enabled(s, e)
    requires e == WorkerMoves(id, Rouse) || (e.SyncWakes? && TurnId(s.locker) == id) ||
             (e.TaskMoves? && e.step.Wake? && s.locker.tasks[e.j].id == id)
    ensures var c, n := Cell(s, id), Cell(Next(s, e), id);
            if e.WorkerMoves? then c.requested && n == c.(requested := false)
            else c.answered && n == c.(answered := false)
    ensures Next(s, e).ledger == s.ledger
  {
  }

  /** A worker whose wait is cancelled is gone; the flags stay, and at most its token is lost. */
  lemma CancelledWorkerLeaves(s: Sys, id: nat, lost: bool)
    requires Worker(s, id).Asleep? && (lost ==> Cell(s, id).requested)
    ensures Enabled(s, WorkerMoves(id, Leave(lost)))
    ensures var s' := Next(s, WorkerMoves(id, Leave(lost)));
            && Worker(s', id).Away? && s'.ledger == s.ledger && s'.locker == s.locker
            && Cell(s', id) == Cell(s, id).(requested := Cell(s, id).requested && !lost)
  {
  }

  /** A request that has not been answered in time is taken back: its task times out, leaves the flags to
      the worker but for its own request, and ends; the plan remembers. */
  lemma RequestTimesOut(s: Sys, j: nat)
    requires s.locker.Requesting? && j < |s.locker.tasks| && s.locker.tasks[j].pc.Sleeping?
    ensures Enabled(s, TaskMoves(j, TimeOut(false)))
    ensures var s1 := Next(s, TaskMoves(j, TimeOut(false)));
            Enabled(s1, TaskMoves(j, GiveUp)) &&
            var s2, id, tasks := Next(s1, TaskMoves(j, GiveUp)), s.locker.tasks[j].id, s.locker.tasks;
            && s2.locker == Requesting(s.locker.plan.(lapsed := true), tasks[j := Task(id, Finished)])
            && Cell(s2, id) ==
               (if Cell(s, id).block then Cell(s, id).(block := false, requested := true) else Cell(s, id))
            && s2.ledger == s.ledger && forall k :: k != id ==> Cell(s2, k) == Cell(s, k)
  {
    var s1 := Next(s, TaskMoves(j, TimeOut(false)));
    var s2 := Next(s1, TaskMoves(j, GiveUp));
    assert s1.locker.tasks[j] == Task(s.locker.tasks[j].id, TimedOut);
    assert s1.locker.tasks[j := Task(s.locker.tasks[j].id, Finished)] == s2.locker.tasks;
  }

  /** A lock that finds too few blockers waits for them; a wait that is given up ends the lock, and leaves the
      manager as it was but for the token that may be lost. */
  lemma LockWaitsForBlockers(s: Sys, lost: bool)
    requires s.locker.CheckReady? && CalcBatch(s.ledger.book.conf, |Blockers(s)|) > |Blockers(s)|
    requires lost ==> s.ledger.book.ready
    ensures var s1 := Next(s, LockLooks);
            && s1 == s.(locker := AwaitReady) && Enabled(s1, LockGivesUp(lost))
            && Next(s1, LockGivesUp(lost)) == WithReady(s, s.ledger.book.ready && !lost).(locker := Idle)
            && (s.ledger.book.ready ==>
                  Enabled(s1, LockWakes) && Next(s1, LockWakes) == WithReady(s, false))
  {
  }

  // ---- Only timeouts take requests back -----------------------------------------------------------

  /** No request task times out. */
  ghost predicate NoTimeouts(es: seq<Event>) { forall j, lost :: TaskMoves(j, TimeOut(lost)) !in es }

  predicate OnTime(l: Locker)
  {
    (InLock(l) ==> !l.plan.lapsed) &&
    (l.Requesting? ==> forall j :: 0 <= j < |l.tasks| ==> !l.tasks[j].pc.TimedOut?)
  }

  lemma StepOnTime(s: Sys, e: Event)
    requires OnTime(s.locker) && Enabled(s, e) && !(e.TaskMoves? && e.step.TimeOut?)
    ensures OnTime(Next(s, e).locker)
  {
    hide L.Next, L.Enabled, Listed, CalcBatch, Sort, Chosen, AskedIds, NoStraggler;
  }

  lemma {:induction false} RunOnTime(s: Sys, es: seq<Event>, s': Sys)
    requires OnTime(s.locker) && Run(s, es, s') && NoTimeouts(es)
    ensures OnTime(s'.locker)
    decreases |es|
  {
    hide Next, Enabled, OnTime;
    if es != [] {
      assert es[0] in es && forall e :: e in es[1..] ==> e in es;
      StepOnTime(s, es[0]);
      RunOnTime(Next(s, es[0]), es[1..], s');
    }
  }

  /** Over every run in which no request task times out, no request is taken back: so every lock that began
      without a straggler has, when it returns, blocked exactly the first batch of its order. */
  lemma OnlyTimeoutsTakeBack(c: Configure, es: seq<Event>, s: Sys)
    requires Run(NewSys(c), es, s) && NoTimeouts(es) && InLock(s.locker)
    ensures !s.locker.plan.lapsed
    ensures s.locker.Held? && s.locker.plan.free ==>
              s.locker.plan.batch <= |s.locker.plan.order| &&
              BlockedIds(s) == OrderIds(s.locker.plan.order[..s.locker.plan.batch])
  {
    RunOnTime(NewSys(c), es, s);
    hide Run, BlockedIds, BlocksTheFirst, CalcBatch, Chosen, Sort;
    if s.locker.Held? && s.locker.plan.free { LockBlocksTheFirst(c, es, s); }
  }
}
