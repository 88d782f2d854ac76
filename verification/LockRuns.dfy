/** The theorems on the locking protocol, over every run from a new manager. */
module LockRuns {
  import B = Blocker
  import opened BlockerManager
  import L = BlockerLedger
  import opened LockProtocol
  import opened LockSafety
  import opened LockPlan

  ghost predicate Run(s: Sys, es: seq<Event>, s': Sys)
    decreases |es|
  {
    if es == [] then s == s' else Enabled(s, es[0]) && Run(Next(s, es[0]), es[1..], s')
  }

  lemma {:induction false} RunKeeps(s: Sys, es: seq<Event>, s': Sys)
    requires Sound(s) && Exact(s) && Run(s, es, s')
    ensures Sound(s') && Exact(s')
    decreases |es|
  {
    hide Sound, Exact, Next, Enabled;
    if es != [] {
      StepSound(s, es[0]);
      StepExact(s, es[0]);
      RunKeeps(Next(s, es[0]), es[1..], s');
    }
  }

  lemma Reachable(c: Configure, es: seq<Event>, s: Sys)
    requires Run(NewSys(c), es, s)
    ensures Sound(s) && Exact(s)
  {
    var s0 := NewSys(c);
    forall id ensures L.IdOk(s0.ledger, id) {}
    forall id ensures WorkerOk(s0, id) {}
    RunKeeps(s0, es, s);
  }

  /** The listed blockers whose workers are blocked. */
  function BlockedIds(s: Sys): set<nat> { set id | id in Listed(s) && Cell(s, id).blocked }

  function First(s: seq<Key>, n: nat): seq<Key> { if |s| <= n then s else s[..n] }

  /** The blocked are the first of those who acked, up to a batch of them, and of the listed no one
      else is asked. */
  ghost predicate BlocksTheFirst(s: Sys)
    requires InLock(s.locker)
  {
    var p := s.locker.plan;
    && Picked(p.order, BlockedIds(s)) == First(Picked(p.order, p.acked), p.batch)
    && forall id :: id in Listed(s) ==> (Cell(s, id).block <==> id in BlockedIds(s))
  }

  /** What a lock that has returned means, if no straggler was left when it began: in the list sorted
      by epoch, priority and id, the blocked are the first of those who acked, up to a batch; no one
      else is blocked or asked; whoever acked was chosen, or was asked already when the lock began;
      and if no request was taken back, all the chosen acked and a full batch is blocked. */
  lemma LockBlocksTheFirst(c: Configure, es: seq<Event>, s: Sys)
    requires Run(NewSys(c), es, s) && s.locker.Held? && s.locker.plan.free
    ensures var p := s.locker.plan; var chosen := OrderIds(p.order[..Chosen(p.order, p.batch)]);
            && p.order == Sort(Keys(Blockers(s))) && p.batch == CalcBatch(s.ledger.book.conf, |p.order|) <= |p.order|
            && BlocksTheFirst(s)
            && p.acked <= chosen + p.leftover
            && (!p.lapsed ==> chosen <= p.acked && BlockedIds(s) == OrderIds(p.order[..p.batch]))
  {
    Reachable(c, es, s);
    HeldPicks(s);
    HeldFlags(s);
    OrderOk(s);
    AckedMeaning(s);
    assert LockerOk(s);
    if !s.locker.plan.lapsed { UnlapsedKeepsBatch(s); }
    hide Sound, Exact, Run, Kept, OrderIds, DistinctIds, Chosen, Sort, CalcBatch, BlockedIds, Cell, Picked;
  }

  lemma HeldPicks(s: Sys)
    requires Sound(s) && Exact(s) && s.locker.Held? && s.locker.plan.free
    ensures var p := s.locker.plan; Picked(p.order, BlockedIds(s)) == First(Picked(p.order, p.acked), p.batch)
  {
    HeldFlags(s);
    hide Sound, Exact, Kept, BlockedIds;
    var p := s.locker.plan;
    KeptAreTheFirst(p, |p.order|, BlockedIds(s));
    assert p.order[..|p.order|] == p.order;
  }

  lemma HeldPlace(s: Sys, j: nat)
    requires Sound(s) && Exact(s) && s.locker.Held? && s.locker.plan.free && j < |s.locker.plan.order|
    ensures var id := s.locker.plan.order[j].id;
            (id in BlockedIds(s) <==> Kept(s.locker.plan, j)) && B.Synced(Cell(s, id))
  {
    OrderOk(s);
    assert PlacesOk(s);
    var order := s.locker.plan.order;
    hide Sound, Exact, Kept, Listed, DistinctIds;
    assert order[j] in order && order[j].id in OrderIds(order);
    assert PlaceOk(s.locker, j, Cell(s, order[j].id));
  }

  /** In a lock that has returned, who is kept is who is blocked and who is asked. */
  lemma HeldFlags(s: Sys)
    requires Sound(s) && Exact(s) && s.locker.Held? && s.locker.plan.free
    ensures var order := s.locker.plan.order;
            forall j :: 0 <= j < |order| ==> (order[j].id in BlockedIds(s) <==> Kept(s.locker.plan, j))
    ensures forall id: nat :: id in Listed(s) ==> (Cell(s, id).block <==> id in BlockedIds(s)) && B.Synced(Cell(s, id))
  {
    OrderOk(s);
    var order := s.locker.plan.order;
    forall j | 0 <= j < |order|
      ensures (order[j].id in BlockedIds(s) <==> Kept(s.locker.plan, j)) && B.Synced(Cell(s, order[j].id))
    {
      HeldPlace(s, j);
    }
    hide Sound, Exact, Kept, Listed, DistinctIds;
    forall id: nat | id in Listed(s) ensures (Cell(s, id).block <==> id in BlockedIds(s)) && B.Synced(Cell(s, id)) {
      assert id in OrderIds(order);
      var k :| k in order && k.id == id;
      var j :| 0 <= j < |order| && order[j] == k;
    }
  }

  lemma AckedMeaning(s: Sys)
    requires Exact(s) && s.locker.Held? && s.locker.plan.free
    ensures var p := s.locker.plan; var chosen := OrderIds(p.order[..Chosen(p.order, p.batch)]);
            p.acked <= chosen + p.leftover && (!p.lapsed ==> chosen <= p.acked)
  {
    var p := s.locker.plan;
    var m := Chosen(p.order, p.batch);
    assert AckersOk(p);
    hide Exact, Chosen;
    assert forall j :: 0 <= j < m ==> p.order[..m][j] == p.order[j];
    forall id | id in p.acked ensures id in OrderIds(p.order[..m]) + p.leftover {
      assert id in OrderIds(p.order);
      var k :| k in p.order && k.id == id;
      var j :| 0 <= j < |p.order| && p.order[j] == k;
      if j < m { assert p.order[..m][j] in p.order[..m]; }
    }
  }

  /** If no request was taken back, the blocked are a full batch, from the front of the order. */
  lemma UnlapsedKeepsBatch(s: Sys)
    requires Sound(s) && Exact(s) && s.locker.Held? && s.locker.plan.free && !s.locker.plan.lapsed
    ensures s.locker.plan.batch <= |s.locker.plan.order|
    ensures BlockedIds(s) == OrderIds(s.locker.plan.order[..s.locker.plan.batch])
    ensures var p := s.locker.plan;
            forall j :: 0 <= j < |p.order| ==> (p.order[j].id in BlockedIds(s) <==> j < p.batch)
  {
    HeldFlags(s);
    OrderOk(s);
    var p := s.locker.plan;
    var order, m := p.order, Chosen(p.order, p.batch);
    assert p.batch <= |order| && AckersOk(p);
    ChosenCoversBatch(order, p.batch);
    hide Sound, Exact, Chosen, OrderIds, DistinctIds;
    forall j | 0 <= j < |order| ensures order[j].id in BlockedIds(s) <==> j < p.batch {
      PickedAtLeast(order, j, p.batch, p.acked);
    }
    BatchIds(s, order, p.batch);
  }

  lemma BatchIds(s: Sys, order: seq<Key>, n: nat)
    requires n <= |order| && OrderIds(order) == Listed(s)
    requires forall j :: 0 <= j < |order| ==> (order[j].id in BlockedIds(s) <==> j < n)
    ensures BlockedIds(s) == OrderIds(order[..n])
  {
    forall id ensures id in BlockedIds(s) <==> id in OrderIds(order[..n]) {
      if id in BlockedIds(s) {
        assert id in OrderIds(order);
        var k :| k in order && k.id == id;
        var j :| 0 <= j < |order| && order[j] == k;
        assert order[..n][j] in order[..n];
      }
      if id in OrderIds(order[..n]) {
        var k :| k in order[..n] && k.id == id;
        var j :| 0 <= j < n && order[..n][j] == k;
      }
    }
  }

  /** Who acked, when the request tasks have ended: those asked. Of the chosen, they are blocked
      already; of the others, they are those who were asked when the lock began. */
  lemma AckersWhenTasksEnd(c: Configure, es: seq<Event>, s: Sys, j: nat)
    requires Run(NewSys(c), es, s) && Enabled(s, TasksDone) && s.locker.plan.free && j < |s.locker.plan.order|
    ensures var p := s.locker.plan; var chosen, id := Chosen(p.order, p.batch), p.order[j].id;
            var acked, cell := Next(s, TasksDone).locker.plan.acked, Cell(s, id);
            && (id in acked <==> cell.block)
            && (j < chosen && id in acked ==> cell.blocked)
            && (j < chosen && !p.lapsed ==> id in acked)
            && (j >= chosen ==> (id in acked <==> id in p.leftover))
  {
    Reachable(c, es, s);
    AckersOf(s, j);
    AckedAtEnd(s);
    hide Next, Enabled, Chosen, Cell, Sound, Exact, AskedIds;
  }

  lemma AckersOf(s: Sys, j: nat)
    requires Sound(s) && Exact(s) && Enabled(s, TasksDone) && s.locker.plan.free && j < |s.locker.plan.order|
    ensures var p, tasks, cell := s.locker.plan, s.locker.tasks, Cell(s, s.locker.plan.order[j].id);
            && (p.order[j].id in AskedIds(s) <==> cell.block)
            && (j < |tasks| && p.order[j].id in AskedIds(s) ==> cell.blocked)
            && (j < |tasks| && !p.lapsed ==> p.order[j].id in AskedIds(s))
            && (j >= |tasks| ==> (p.order[j].id in AskedIds(s) <==> p.order[j].id in p.leftover))
  {
    hide Sound, PlaceOk, PlacesOk, StraysOff, AckedOk, AskedIds, Cell;
    TasksDonePlaces(s);
  }

  lemma AckedAtEnd(s: Sys)
    requires Sound(s) && Enabled(s, TasksDone)
    ensures Next(s, TasksDone).locker.Settling? && Next(s, TasksDone).locker.plan.acked == AskedIds(s)
    ensures |s.locker.tasks| == Chosen(s.locker.plan.order, s.locker.plan.batch)
  {
    assert LockerOk(s);
    hide Sound, Chosen, AskedIds;
  }

  // ---- Blocked workers wait --------------------------------------------------------------------------

  /** The worker of a blocker was cancelled while it waited. */
  ghost predicate WasCancelled(es: seq<Event>, id: nat) { exists lost :: WorkerMoves(id, Leave(lost)) in es }

  lemma BlockedStep(s: Sys, e: Event, id: nat)
    requires Enabled(s, e) && (Cell(s, id).blocked ==> !Worker(s, id).Away?)
    requires !(e.WorkerMoves? && e.id == id && e.move.Leave?)
    ensures Cell(Next(s, e), id).blocked ==> !Worker(Next(s, e), id).Away?
  {
    if e.WorkerMoves? {
      hide Moved, L.Next, L.Enabled, Listed;
    } else {
      OthersBlockNobody(s, e, id);
      hide *;
    }
  }

  /** Only a worker answers. */
  lemma OthersBlockNobody(s: Sys, e: Event, id: nat)
    requires Enabled(s, e) && !e.WorkerMoves?
    ensures Next(s, e).workers == s.workers && Worker(Next(s, e), id) == Worker(s, id)
    ensures Cell(Next(s, e), id).blocked ==> Cell(s, id).blocked
  {
    hide L.Next, L.Enabled, Listed, CanMove;
  }

  lemma {:induction false} BlockedRun(s: Sys, es: seq<Event>, s': Sys, id: nat)
    requires Run(s, es, s') && (Cell(s, id).blocked ==> !Worker(s, id).Away?) && !WasCancelled(es, id)
    ensures Cell(s', id).blocked ==> !Worker(s', id).Away?
    decreases |es|
  {
    hide Next, Enabled, Cell, Worker;
    if es != [] {
      assert es == [es[0]] + es[1..];
      assert forall lost :: es[0] != WorkerMoves(id, Leave(lost));
      BlockedStep(s, es[0], id);
      BlockedRun(Next(s, es[0]), es[1..], s', id);
    }
  }

  /** What a lock counts on: over every run, a blocker that counts as blocked has its worker waiting, unless that
      worker's wait was cancelled. And a look lets its worker go exactly if nobody wants it blocked, and
      else leaves it waiting. */
  lemma BlockedWorkersWait(c: Configure, es: seq<Event>, s: Sys, id: nat)
    requires Run(NewSys(c), es, s)
    ensures Cell(s, id).blocked && Worker(s, id).Away? ==> WasCancelled(es, id)
    ensures Enabled(s, WorkerMoves(id, Look)) ==>
              var s' := Next(s, WorkerMoves(id, Look));
              && Worker(s', id) == (if Cell(s, id).block then B.Asleep else B.Away)
              && Cell(s', id).blocked == Cell(s, id).block == Cell(s', id).block
  {
    if !WasCancelled(es, id) { BlockedRun(NewSys(c), es, s, id); }
    B.LookMeaning(Cell(s, id));
  }

  // ---- From a lock's return to its unlock --------------------------------------------------------

  lemma HeldStep(s: Sys, e: Event)
    requires Sound(s) && Exact(s) && s.locker.Held? && s.locker.plan.free && Enabled(s, e) && !e.UnlockCalled?
    ensures Next(s, e).locker == s.locker
    ensures Listed(Next(s, e)) == Listed(s) && BlockedIds(Next(s, e)) == BlockedIds(s)
  {
    var s' := Next(s, e);
    OrderOk(s);
    StepSound(s, e);
    HeldLocker(s, e);
    OrderOk(s');
    HeldFlags(s);
    assert StraysOff(s) && s.ledger.book.locked by { assert LockerOk(s); }
    hide Sound, Exact, OrderIds, Listed, Next, Enabled, DistinctIds;
    forall id | id in Listed(s) ensures Cell(s', id).blocked == Cell(s, id).blocked { HeldCell(s, e, id); }
  }

  lemma HeldLocker(s: Sys, e: Event)
    requires s.locker.Held? && Enabled(s, e) && !e.UnlockCalled?
    ensures Next(s, e).locker == s.locker
  {
  }

  /** No step lets go of, or blocks, a listed blocker whose flags agree, while a lock is held. */
  lemma HeldCell(s: Sys, e: Event, id: nat)
    requires s.locker.Held? && s.ledger.book.locked && Enabled(s, e) && !e.UnlockCalled?
    requires id in Listed(s) && B.Synced(Cell(s, id))
    requires forall i :: 0 <= i < |s.strays| && !s.strays[i].pc.Finished? ==> s.strays[i].id != id
    ensures Cell(Next(s, e), id).blocked == Cell(s, id).blocked
  {
    hide Listed, L.Next, L.Enabled, Moved, WorkerMoved, WorkerCan;
    if e.WorkerMoves? { WorkerKeepsSynced(Worker(s, e.id), Cell(s, e.id), e.move); }
  }

  lemma WorkerKeepsSynced(pc: B.Pc, c: B.Blocker, m: WorkerMove)
    requires WorkerCan(pc, c, m)
    ensures B.Synced(c) ==> WorkerMoved(pc, c, m).1.blocked == c.blocked
  {
  }

  /** Once a lock has returned, no step of a worker, of a caller that joins or leaves, or of anything
      else changes who is listed or who is blocked, until unlock is called. */
  lemma {:induction false} HeldUntilUnlock(c: Configure, before: seq<Event>, s: Sys, es: seq<Event>, s': Sys)
    requires Run(NewSys(c), before, s) && s.locker.Held? && s.locker.plan.free
    requires Run(s, es, s') && UnlockCalled !in es
    ensures s'.locker == s.locker && Listed(s') == Listed(s) && BlockedIds(s') == BlockedIds(s)
    ensures forall id: nat :: id in BlockedIds(s) && Enabled(s', WorkerMoves(id, Look)) ==>
        Next(s', WorkerMoves(id, Look)).workers[id].Asleep?
  {
    Reachable(c, before, s);
    HeldFrom(s, es, s');
    HeldFlags(s');
    hide Sound, Exact, Run, Listed, BlockedIds;
  }

  lemma {:induction false} HeldFrom(s: Sys, es: seq<Event>, s': Sys)
    requires Sound(s) && Exact(s) && s.locker.Held? && s.locker.plan.free && Run(s, es, s') && UnlockCalled !in es
    ensures s'.locker == s.locker && Listed(s') == Listed(s) && BlockedIds(s') == BlockedIds(s)
    ensures Sound(s') && Exact(s')
    decreases |es|
  {
    hide Sound, Exact, Next, Enabled, Listed, BlockedIds;
    if es != [] {
      var e := es[0];
      assert e in es;
      HeldStep(s, e);
      StepSound(s, e);
      StepExact(s, e);
      HeldFrom(Next(s, e), es[1..], s');
    }
  }

  // ---- No lost wakeups -----------------------------------------------------------------------------

  /** In every run, with stragglers or without: a worker that sleeps although nobody blocks it can
      wake, and its next look lets it go on. */
  lemma WorkersWake(c: Configure, es: seq<Event>, s: Sys, id: nat)
    requires Run(NewSys(c), es, s) && Worker(s, id).Asleep? && !Cell(s, id).block
    ensures Enabled(s, WorkerMoves(id, Rouse))
    ensures var s1 := Next(s, WorkerMoves(id, Rouse));
            Enabled(s1, WorkerMoves(id, Look)) && Next(s1, WorkerMoves(id, Look)).workers[id].Away?
  {
    Reachable(c, es, s);
    assert WorkerOk(s, id);
    hide Sound, Exact, Run, Listed;
  }

  /** Without stragglers: a locker that sleeps although the blocker it waits for is in sync can
      wake, and its next look goes on to the next one. */
  lemma LockerWakes(c: Configure, es: seq<Event>, s: Sys)
    requires Run(NewSys(c), es, s)
    requires Syncing(s.locker) && AtTurn(s.locker) && s.locker.asleep && B.Synced(Cell(s, TurnId(s.locker)))
    requires s.locker.plan.free
    ensures Enabled(s, SyncWakes)
    ensures var s1 := Next(s, SyncWakes); Enabled(s1, SyncLooks) && Next(s1, SyncLooks).locker.k == s.locker.k + 1
  {
    Reachable(c, es, s);
    AnswerWaits(s);
    WakeThenLook(s);
  }

  lemma WakeThenLook(s: Sys)
    requires Enabled(s, SyncWakes) && B.Synced(Cell(s, TurnId(s.locker)))
    ensures var s1 := Next(s, SyncWakes); Enabled(s1, SyncLooks) && Next(s1, SyncLooks).locker.k == s.locker.k + 1
  {
    var s1 := Next(s, SyncWakes);
    assert Enabled(s1, SyncLooks);
    assert B.Synced(Cell(s1, TurnId(s1.locker)));
  }

  lemma AnswerWaits(s: Sys)
    requires Exact(s)
    requires Syncing(s.locker) && AtTurn(s.locker) && s.locker.asleep && B.Synced(Cell(s, TurnId(s.locker)))
    requires s.locker.plan.free
    ensures Cell(s, TurnId(s.locker)).answered
  {
    hide Kept, AckedOk;
    assert PlaceOk(s.locker, s.locker.k, Cell(s, TurnId(s.locker)));
  }

  /** The same of a request task: its next look ends it. */
  lemma RequestTasksWake(c: Configure, es: seq<Event>, s: Sys, j: nat)
    requires Run(NewSys(c), es, s) && s.locker.Requesting? && s.locker.plan.free && j < |s.locker.tasks|
    requires s.locker.tasks[j].pc.Sleeping? && B.Synced(Cell(s, s.locker.tasks[j].id))
    ensures Enabled(s, TaskMoves(j, Wake))
    ensures var s1 := Next(s, TaskMoves(j, Wake));
            Enabled(s1, TaskMoves(j, Check)) && Next(s1, TaskMoves(j, Check)).locker.tasks[j].pc.Finished?
  {
    Reachable(c, es, s);
    assert PlacesOk(s) && LockerOk(s);
    hide Sound, Exact, Run, Chosen;
    assert PlaceOk(s.locker, j, Cell(s, s.locker.plan.order[j].id));
  }

  // ---- Waiting for enough blockers -----------------------------------------------------------------

  /** A locker waits without a token only while there are too few. */
  predicate ReadyOk(s: Sys)
  {
    s.locker.AwaitReady? && |Blockers(s)| >= s.ledger.book.conf.minBatch ==> s.ledger.book.ready
  }

  lemma {:induction false} WithoutBlockerShrinks(bs: seq<Info>, id: nat)
    ensures |WithoutBlocker(bs, id)| <= |bs|
  {
    if bs != [] { WithoutBlockerShrinks(bs[1..], id); }
  }

  /** The configuration never changes. */
  lemma StepConf(s: Sys, e: Event)
    requires Enabled(s, e)
    ensures Next(s, e).ledger.book.conf == s.ledger.book.conf
  {
    hide L.Next, Unlocked, LockLook, Cell;
    match e
    case Member(m) => L.ConfStays(s.ledger, m);
    case TasksCancelled => UnlockedConf(s);
    case SyncCancelled(lost) => UnlockedConf(WithAnswer(s, lost));
    case UnlockCalled => UnlockedConf(s);
    case LockLooks => LookConf(s);
    case LockWakes =>
    case LockGivesUp(_) =>
    case _ => BooklessKeepsLedger(s, e);
  }

  lemma LookConf(s: Sys)
    ensures LockLook(s).ledger.book.conf == s.ledger.book.conf
  {
    hide CalcBatch, Sort, Chosen, AskedIds, NoStraggler;
  }

  lemma {:induction false} RunConf(s: Sys, es: seq<Event>, s': Sys)
    requires Run(s, es, s')
    ensures s'.ledger.book.conf == s.ledger.book.conf
    decreases |es|
  {
    hide Next, Enabled;
    if es != [] {
      StepConf(s, es[0]);
      RunConf(Next(s, es[0]), es[1..], s');
    }
  }

  lemma StepReady(s: Sys, e: Event)
    requires Sound(s) && Validated(s.ledger.book.conf) && ReadyOk(s) && Enabled(s, e)
    ensures ReadyOk(Next(s, e))
  {
    if e.Member? {
      assert LockerOk(s);
      MemberReady(s, e.e);
    } else if e.LockLooks? {
      LookReady(s);
    } else if e.SyncCancelled? {
      UnlockedConf(WithAnswer(s, e.lost));
    } else if e.TasksCancelled? || e.UnlockCalled? {
      UnlockedConf(s);
    } else {
      OtherReady(s, e);
    }
    hide Sound, LockLook, Unlocked, WithAnswer, L.Next, L.Enabled;
  }

  lemma OtherReady(s: Sys, e: Event)
    requires ReadyOk(s) && Enabled(s, e)
    requires !e.Member? && !e.LockLooks? && !e.SyncCancelled? && !e.TasksCancelled? && !e.UnlockCalled?
    ensures Next(s, e).ledger.book.conf == s.ledger.book.conf && ReadyOk(Next(s, e))
  {
    hide WorkerMoved, Moved, AskedIds, CanMove, WorkerCan;
  }

  lemma LookReady(s: Sys)
    requires Validated(s.ledger.book.conf)
    ensures LockLook(s).ledger.book.conf == s.ledger.book.conf && ReadyOk(LockLook(s))
  {
    var size := |Blockers(s)|;
    BatchArithmetic(s.ledger.book.conf, size, size);
    hide CalcBatch, Sort, Chosen;
  }

  lemma UnlockedConf(s: Sys)
    ensures Unlocked(s).ledger.book.conf == s.ledger.book.conf && Unlocked(s).locker == Idle
  {
  }

  lemma MemberReady(s: Sys, m: L.Event)
    requires LockerOk(s) && Validated(s.ledger.book.conf) && ReadyOk(s) && Enabled(s, Member(m))
    ensures Next(s, Member(m)).ledger.book.conf == s.ledger.book.conf && ReadyOk(Next(s, Member(m)))
  {
    var size := |Blockers(s)|;
    BatchArithmetic(s.ledger.book.conf, size, size);
    hide CalcBatch, Sort, Chosen;
    if m.Remove? { WithoutBlockerShrinks(Blockers(s), m.id); }
  }

  lemma {:induction false} RunReady(s: Sys, es: seq<Event>, s': Sys)
    requires Sound(s) && Validated(s.ledger.book.conf) && ReadyOk(s) && Run(s, es, s')
    ensures ReadyOk(s')
    decreases |es|
  {
    hide Sound, Next, Enabled, ReadyOk;
    if es != [] {
      StepSound(s, es[0]);
      StepConf(s, es[0]);
      StepReady(s, es[0]);
      RunReady(Next(s, es[0]), es[1..], s');
    }
  }

  /** With a validated configuration: whenever the locker waits and there are blockers enough, it
      can wake, and its next look takes the lock. */
  lemma WaitingLockerIsWoken(c: Configure, es: seq<Event>, s: Sys)
    requires Validated(c) && Run(NewSys(c), es, s) && s.locker.AwaitReady? && |Blockers(s)| >= c.minBatch
    ensures Enabled(s, LockWakes) && Next(Next(s, LockWakes), LockLooks).locker.Requesting?
  {
    var s0 := NewSys(c);
    Reachable(c, [], s0);
    Reachable(c, es, s);
    RunConf(s0, es, s);
    RunReady(s0, es, s);
    BatchArithmetic(c, |Blockers(s)|, |Blockers(s)|);
    assert LockerOk(s);
    hide Sound, Exact, CalcBatch, Sort, Chosen;
  }

  // ---- Patient runs ----------------------------------------------------------------------------------

  /** A lock is not cancelled while one of its request tasks is going. */
  predicate Patient(s: Sys, e: Event)
  {
    e.TasksCancelled? && s.locker.Requesting? ==>
      forall j :: 0 <= j < |s.locker.tasks| ==> s.locker.tasks[j].pc.Finished?
  }

  ghost predicate PatientRun(s: Sys, es: seq<Event>, s': Sys)
    decreases |es|
  {
    if es == [] then s == s'
    else Enabled(s, es[0]) && Patient(s, es[0]) && PatientRun(Next(s, es[0]), es[1..], s')
  }

  /** No straggler is left, nor was when the lock now under way began. */
  predicate Unhaunted(s: Sys) { NoStraggler(s) && (InLock(s.locker) ==> s.locker.plan.free) }

  /** Who is listed and was listed or removed before was listed before. */
  lemma NoReturn(l: L.Ledger, e: L.Event)
    requires L.Balanced(l) && L.Enabled(l, e)
    ensures var l' := L.Next(l, e);
            forall id :: Home(l, id) && id in L.IdsOf(l'.book.blockers) ==> id in L.IdsOf(l.book.blockers)
  {
    L.StepKeeps(l, e);
    var l' := L.Next(l, e);
    assert l.removed <= l'.removed;
    hide L.Next, L.IdsOf, L.RequestIdsOf, L.DistinctBlockers, L.DistinctRequests;
    forall id | Home(l, id) && id in L.IdsOf(l'.book.blockers) ensures id in L.IdsOf(l.book.blockers) {
      assert L.IdOk(l', id);
    }
  }

  lemma LedgerUnhaunted(s: Sys, s': Sys, e: L.Event)
    requires Sound(s) && NoStraggler(s) && L.Enabled(s.ledger, e) && s'.ledger == L.Next(s.ledger, e) &&
        s'.strays == s.strays
    ensures NoStraggler(s')
  {
    NoReturn(s.ledger, e);
    assert StraysOk(s);
    hide Sound, L.Next;
    forall i | 0 <= i < |s'.strays| && !s'.strays[i].pc.Finished? ensures s'.strays[i].id !in Listed(s') {
      assert Home(s.ledger, s.strays[i].id);
    }
  }

  lemma UnlockUnhaunted(s: Sys)
    requires Sound(s) && NoStraggler(s)
    ensures NoStraggler(Unlocked(s))
  {
    if s.ledger.book.locked { LedgerUnhaunted(s, Unlocked(s), L.UnlockAll(Asked(s))); }
  }

  lemma StepUnhaunted(s: Sys, e: Event)
    requires Sound(s) && Unhaunted(s) && Enabled(s, e) && Patient(s, e)
    ensures Unhaunted(Next(s, e))
  {
    UnlockedIsIdle(s);
    match e
    case Member(m) => LedgerUnhaunted(s, Next(s, e), m);
    case UnlockCalled => UnlockUnhaunted(s);
    case TasksCancelled => UnlockUnhaunted(s); TasksEndUnhaunted(s);
    case SyncCancelled(lost) =>
      AnswerSound(s, lost);
      UnlockedIsIdle(WithAnswer(s, lost));
      UnlockUnhaunted(WithAnswer(s, lost));
    case _ =>
      hide Sound, Moved, WorkerMoved, Sort, CalcBatch, Chosen;
      QuietLedger(s, e);
  }

  lemma TasksEndUnhaunted(s: Sys)
    requires s.locker.Requesting? && NoStraggler(Unlocked(s)) && Patient(s, TasksCancelled)
    ensures Unhaunted(Next(s, TasksCancelled))
  {
    UnlockedIsIdle(s);
    var s', u := Next(s, TasksCancelled), Unlocked(s);
    assert u.strays == s.strays && Listed(s') == Listed(u);
    hide Unlocked;
    assert forall i :: 0 <= i < |s.strays| ==> s'.strays[i] == u.strays[i];
  }

  lemma QuietLedger(s: Sys, e: Event)
    requires Enabled(s, e) && !e.Member? && !e.UnlockCalled? && !e.TasksCancelled? && !e.SyncCancelled?
    ensures Blockers(Next(s, e)) == Blockers(s)
    ensures |Next(s, e).strays| == |s.strays|
    ensures forall i :: 0 <= i < |s.strays| ==>
              Next(s, e).strays[i].id == s.strays[i].id && (s.strays[i].pc.Finished? ==>
                  Next(s, e).strays[i].pc.Finished?)
    ensures InLock(Next(s, e).locker) ==>
              Next(s, e).locker.plan.free == if InLock(s.locker) then s.locker.plan.free else NoStraggler(s)
  {
    hide Sort, CalcBatch, Chosen, NoStraggler, AskedIds;
  }
}
