/** What each blocker's flags are at each point of a lock that began without stragglers. */
module LockPlan {
  import B = Blocker
  import opened BlockerManager
  import L = BlockerLedger
  import opened LockProtocol
  import opened LockSafety

  /** A blocker whose request task is at `pc`. */
  predicate TaskOk(pc: TaskPc, lapsed: bool, c: B.Blocker)
  {
    match pc
    case Unstarted => true
    case Checking => c.block
    case Sleeping => c.block && B.SyncReachable(c, true)
    case TimedOut => c.block
    case Finished => (c.block ==> c.blocked) && (!lapsed ==> c.block)
  }

  /** A loop of syncs: the ones passed are in sync, and a sleeping locker has its token once the one
      it waits for is. */
  predicate SyncOk(wanted: bool, passed: bool, waited: bool, c: B.Blocker)
  {
    (c.block <==> wanted) && (passed ==> B.Synced(c)) && B.SyncReachable(c, waited)
  }

  /** What the flags of the j-th blocker in order are. */
  predicate PlaceOk(l: Locker, j: nat, c: B.Blocker)
    requires InLock(l) && j < |l.plan.order|
  {
    var acked := l.plan.order[j].id in l.plan.acked;
    match l
    case Requesting(p, tasks) =>
      if j < |tasks| then TaskOk(tasks[j].pc, p.lapsed, c) else c.block <==> p.order[j].id in p.leftover
    case Settling(_, k, asleep) => SyncOk(acked, j < k, asleep && j == k, c)
    case Releasing(p, k, _) =>
      if j < k then SyncOk(Kept(p, j), false, false, c) else SyncOk(acked, true, false, c)
    case Resettling(p, k, asleep) => SyncOk(Kept(p, j), j < k, asleep && j == k, c)
    case Held(p) => SyncOk(Kept(p, j), true, false, c)
  }

  /** Who acked: of the chosen, all unless a request was taken back; of the others, those who were
      asked already when the lock began. */
  predicate AckersOk(p: Plan)
  {
    var m := Chosen(p.order, p.batch);
    && p.acked <= OrderIds(p.order)
    && (!p.lapsed ==> forall j :: 0 <= j < m ==> p.order[j].id in p.acked)
    && (forall j :: m <= j < |p.order| ==> (p.order[j].id in p.acked <==> p.order[j].id in p.leftover))
  }

  /** Once the request tasks have ended; and a releasing locker has counted the acked so far. */
  predicate AckedOk(l: Locker)
  {
    && (Syncing(l) || l.Releasing? || l.Held? ==> AckersOk(l.plan))
    && (l.Releasing? && l.k <= |l.plan.order| ==> l.n == |Picked(l.plan.order[..l.k], l.plan.acked)|)
  }

  ghost predicate PlacesOk(s: Sys)
    requires InLock(s.locker)
  {
    forall j :: 0 <= j < |s.locker.plan.order| ==> PlaceOk(s.locker, j, Cell(s, s.locker.plan.order[j].id))
  }

  /** Stragglers are for blockers that this lock does not know. */
  predicate StraysOff(s: Sys)
    requires InLock(s.locker)
  {
    forall i :: 0 <= i < |s.strays| && !s.strays[i].pc.Finished? ==> s.strays[i].id !in OrderIds(s.locker.plan.order)
  }

  predicate InFreeLock(l: Locker) { InLock(l) && l.plan.free }

  ghost predicate Exact(s: Sys)
  {
    InFreeLock(s.locker) ==> PlacesOk(s) && AckedOk(s.locker) && StraysOff(s)
  }

  lemma OrderOk(s: Sys)
    requires Sound(s) && InLock(s.locker)
    ensures var order := s.locker.plan.order;
            DistinctIds(order) && |order| == |Blockers(s)| && OrderIds(order) == Listed(s)
  {
    OrderFacts(s);
    var order := s.locker.plan.order;
    forall id ensures id in OrderIds(order) <==> id in Listed(s) {
      if id in Listed(s) { var j :| 0 <= j < |order| && order[j].id == id; assert order[j] in order; }
    }
  }

  lemma MemberExact(s: Sys, m: L.Event)
    requires Sound(s) && Exact(s) && Enabled(s, Member(m))
    ensures Exact(Next(s, Member(m)))
  {
    hide L.Balanced, L.Next, PlaceOk, AckedOk, WorkerOk, StraysOk;
    var s' := Next(s, Member(m));
    if InFreeLock(s.locker) {
      var order := s.locker.plan.order;
      forall j | 0 <= j < |order| ensures PlaceOk(s'.locker, j, Cell(s', order[j].id)) {
        assert PlaceOk(s.locker, j, Cell(s, order[j].id));
      }
    }
  }

  lemma WorkerKeepsSync(wanted: bool, passed: bool, waited: bool, pc: B.Pc, c: B.Blocker, m: WorkerMove)
    requires SyncOk(wanted, passed, waited, c) && WorkerCan(pc, c, m)
    ensures SyncOk(wanted, passed, waited, WorkerMoved(pc, c, m).1)
  {
  }

  lemma WorkerKeepsTask(t: TaskPc, lapsed: bool, pc: B.Pc, c: B.Blocker, m: WorkerMove)
    requires TaskOk(t, lapsed, c) && WorkerCan(pc, c, m)
    ensures TaskOk(t, lapsed, WorkerMoved(pc, c, m).1)
  {
  }

  lemma WorkerKeepsPlace(l: Locker, j: nat, pc: B.Pc, c: B.Blocker, m: WorkerMove)
    requires InLock(l) && j < |l.plan.order| && PlaceOk(l, j, c) && WorkerCan(pc, c, m)
    ensures PlaceOk(l, j, WorkerMoved(pc, c, m).1)
  {
    hide WorkerMoved, TaskOk, SyncOk, WorkerCan, Kept;
    forall wanted, passed, waited | SyncOk(wanted, passed, waited, c)
      ensures SyncOk(wanted, passed, waited, WorkerMoved(pc, c, m).1) {
      WorkerKeepsSync(wanted, passed, waited, pc, c, m);
    }
    forall t, lapsed | TaskOk(t, lapsed, c) ensures TaskOk(t, lapsed,
      WorkerMoved(pc, c, m).1) { WorkerKeepsTask(t, lapsed, pc, c, m); }
    WorkerKeepsBlock(pc, c, m);
  }

  lemma WorkerKeepsBlock(pc: B.Pc, c: B.Blocker, m: WorkerMove)
    requires WorkerCan(pc, c, m)
    ensures WorkerMoved(pc, c, m).1.block == c.block
  {
  }

  lemma WorkerExact(s: Sys, id: nat, m: WorkerMove)
    requires Exact(s) && Enabled(s, WorkerMoves(id, m))
    ensures Exact(Next(s, WorkerMoves(id, m)))
  {
    hide PlaceOk, AckedOk;
    var s' := Next(s, WorkerMoves(id, m));
    if InFreeLock(s.locker) {
      var order := s.locker.plan.order;
      forall j | 0 <= j < |order| ensures PlaceOk(s'.locker, j, Cell(s', order[j].id)) {
        assert PlaceOk(s.locker, j, Cell(s, order[j].id));
        if order[j].id == id { WorkerKeepsPlace(s.locker, j, Worker(s, id), Cell(s, id), m); }
      }
    }
  }

  lemma TaskKeepsOk(pc: TaskPc, lapsed: bool, c: B.Blocker, m: TaskMove)
    requires TaskOk(pc, lapsed, c) && CanMove(pc, c, m)
    ensures var (pc', c') := Moved(pc, c, m); TaskOk(pc', lapsed || m.GiveUp?, c')
  {
  }

  lemma LapseWeakens(pc: TaskPc, lapsed: bool, more: bool, c: B.Blocker)
    requires TaskOk(pc, lapsed, c)
    ensures TaskOk(pc, lapsed || more, c)
  {
  }

  /** The locker after the j-th task moved. */
  function TaskMoved(l: Locker, j: nat, c: B.Blocker, m: TaskMove): Locker
    requires l.Requesting? && j < |l.tasks|
  {
    Requesting(l.plan.(lapsed := l.plan.lapsed || m.GiveUp?),
        l.tasks[j := l.tasks[j].(pc := Moved(l.tasks[j].pc, c, m).0)])
  }

  lemma TaskKeepsPlace(l: Locker, i: nat, j: nat, ci: B.Blocker, cj: B.Blocker, m: TaskMove)
    requires l.Requesting? && j < |l.tasks| && i < |l.plan.order| && PlaceOk(l, i, ci)
    requires CanMove(l.tasks[j].pc, cj, m) && (i == j ==> ci == cj)
    ensures PlaceOk(TaskMoved(l, j, cj, m), i, if i == j then Moved(l.tasks[j].pc, cj, m).1 else ci)
  {
    hide TaskOk, Moved, CanMove;
    if i == j { TaskKeepsOk(l.tasks[j].pc, l.plan.lapsed, cj, m); }
    else if i < |l.tasks| { LapseWeakens(l.tasks[i].pc, l.plan.lapsed, m.GiveUp?, ci); }
  }

  lemma TaskMovedSys(s: Sys, j: nat, m: TaskMove)
    requires Enabled(s, TaskMoves(j, m))
    ensures var t, s' := s.locker.tasks[j], Next(s, TaskMoves(j, m));
            && s'.locker == TaskMoved(s.locker, j, Cell(s, t.id), m) && s'.strays == s.strays
            && forall k :: Cell(s', k) == if k == t.id then Moved(t.pc, Cell(s, t.id), m).1 else Cell(s, k)
  {
    hide Moved, CanMove;
  }

  lemma TaskExact(s: Sys, j: nat, m: TaskMove)
    requires Sound(s) && Exact(s) && Enabled(s, TaskMoves(j, m))
    ensures Exact(Next(s, TaskMoves(j, m)))
  {
    TaskMovedSys(s, j, m);
    hide Sound, PlaceOk, Moved, CanMove, Next, Enabled, Cell, AckersOk, OrderIds;
    if InFreeLock(s.locker) { TaskPlaces(s, j, m); }
  }

  lemma TaskPlaces(s: Sys, j: nat, m: TaskMove)
    requires Sound(s) && Enabled(s, TaskMoves(j, m)) && PlacesOk(s)
    ensures InLock(Next(s, TaskMoves(j, m)).locker) && PlacesOk(Next(s, TaskMoves(j, m)))
  {
    OrderOk(s);
    TaskMovedSys(s, j, m);
    var s' := Next(s, TaskMoves(j, m));
    var order, t := s.locker.plan.order, s.locker.tasks[j];
    assert LockerOk(s) && CanMove(t.pc, Cell(s, t.id), m);
    hide Sound, LockerOk, PlaceOk, Moved, CanMove, Next, Enabled, Cell;
    forall i | 0 <= i < |order| ensures PlaceOk(s'.locker, i, Cell(s', order[i].id)) {
      assert PlaceOk(s.locker, i, Cell(s, order[i].id));
      TaskKeepsPlace(s.locker, i, j, Cell(s, order[i].id), Cell(s, t.id), m);
    }
  }

  /** Stragglers move nothing that a lock without them works on. */
  lemma StrayExact(s: Sys, i: nat, m: TaskMove)
    requires Exact(s) && Enabled(s, StrayMoves(i, m))
    ensures Exact(Next(s, StrayMoves(i, m)))
  {
    hide PlaceOk, AckedOk, Moved;
    var s' := Next(s, StrayMoves(i, m));
    if InFreeLock(s.locker) {
      var order, t := s.locker.plan.order, s.strays[i];
      assert CanMove(t.pc, Cell(s, t.id), m) && !t.pc.Finished?;
      forall j | 0 <= j < |order| ensures PlaceOk(s'.locker, j, Cell(s', order[j].id)) {
        assert order[j] in order && PlaceOk(s.locker, j, Cell(s, order[j].id));
      }
    }
  }

  /** At the beginning of a lock: no task has begun, and the leftovers are those asked. */
  lemma NewLockPlaces(s: Sys, s': Sys)
    requires s'.locker.Requesting? && forall i :: 0 <= i < |s'.locker.tasks| ==> s'.locker.tasks[i].pc.Unstarted?
    requires s'.locker.plan.leftover == AskedIds(s) && OrderIds(s'.locker.plan.order) <= Listed(s)
    requires s'.cells == s.cells
    ensures PlacesOk(s')
  {
    hide Listed;
    var order := s'.locker.plan.order;
    forall j | 0 <= j < |order| ensures PlaceOk(s'.locker, j, Cell(s', order[j].id)) {
      assert order[j] in order && order[j].id in OrderIds(order);
    }
  }

  lemma NewLockExact(s: Sys, s': Sys)
    requires s'.locker.Requesting? && PlacesOk(s') && s'.strays == s.strays
    requires OrderIds(s'.locker.plan.order) <= Listed(s) && (s'.locker.plan.free ==> NoStraggler(s))
    ensures Exact(s')
  {
    hide PlacesOk, Listed;
  }

  lemma OrderIsListed(s: Sys)
    requires L.Balanced(s.ledger)
    ensures OrderIds(Sort(Keys(Blockers(s)))) <= Listed(s)
  {
    OrderFacts(s);
    hide Sort, Listed, DistinctIds, Sorted;
  }

  lemma LockLookExact(s: Sys)
    requires Sound(s) && s.locker.CheckReady?
    ensures Exact(LockLook(s))
  {
    OrderIsListed(s);
    hide Sound, LockLook, Sort, OrderIds, Listed, AskedIds, NoStraggler, PlacesOk, AckedOk, StraysOff;
    var s' := LockLook(s);
    if InLock(s'.locker) {
      LookBegins(s);
      NewLockPlaces(s, s');
      NewLockExact(s, s');
    }
  }

  lemma LookBegins(s: Sys)
    requires s.locker.CheckReady? && InLock(LockLook(s).locker)
    ensures var s', order := LockLook(s), Sort(Keys(Blockers(s)));
            && s'.locker.Requesting? && s'.cells == s.cells && s'.strays == s.strays
            && (forall i :: 0 <= i < |s'.locker.tasks| ==> s'.locker.tasks[i].pc.Unstarted?)
            && s'.locker.plan.order == order && s'.locker.plan.leftover == AskedIds(s)
            && (s'.locker.plan.free ==> NoStraggler(s))
  {
    hide Chosen, Sort, CalcBatch, AskedIds, NoStraggler;
  }

  /** When its task has ended, a blocker that is asked is blocked, and a set of acked ids that
      agrees with the flags starts the syncs right. */
  lemma EndedTaskSettles(l: Locker, j: nat, c: B.Blocker, acked: set<nat>)
    requires l.Requesting? && j < |l.plan.order| && PlaceOk(l, j, c)
    requires forall i :: 0 <= i < |l.tasks| ==> l.tasks[i].pc.Finished?
    requires l.plan.order[j].id in acked <==> c.block
    ensures PlaceOk(Settling(l.plan.(acked := acked), 0, false), j, c)
    ensures j < |l.tasks| && !l.plan.lapsed ==> c.block
    ensures j < |l.tasks| && c.block ==> c.blocked
    ensures j >= |l.tasks| ==> (c.block <==> l.plan.order[j].id in l.plan.leftover)
  {
  }

  /** What the end of the request tasks finds, place by place. */
  lemma TasksDonePlaces(s: Sys)
    requires Sound(s) && Enabled(s, TasksDone) && PlacesOk(s)
    ensures var order, tasks, acked, plan := s.locker.plan.order, s.locker.tasks, AskedIds(s), s.locker.plan;
            forall j :: 0 <= j < |order| ==>
              && PlaceOk(Settling(plan.(acked := acked), 0, false), j, Cell(s, order[j].id))
              && (j < |tasks| && !plan.lapsed ==> order[j].id in acked)
              && (j < |tasks| && order[j].id in acked ==> Cell(s, order[j].id).blocked)
              && (j >= |tasks| ==> (order[j].id in acked <==> order[j].id in plan.leftover))
              && (order[j].id in acked <==> Cell(s, order[j].id).block)
  {
    OrderOk(s);
    var order, acked := s.locker.plan.order, AskedIds(s);
    hide Sound, PlaceOk, DistinctIds, Listed;
    forall j | 0 <= j < |order|
      ensures var tasks, plan := s.locker.tasks, s.locker.plan;
              && PlaceOk(Settling(plan.(acked := acked), 0, false), j, Cell(s, order[j].id))
              && (j < |tasks| && !plan.lapsed ==> order[j].id in acked)
              && (j < |tasks| && order[j].id in acked ==> Cell(s, order[j].id).blocked)
              && (j >= |tasks| ==> (order[j].id in acked <==> order[j].id in plan.leftover))
              && (order[j].id in acked <==> Cell(s, order[j].id).block)
    {
      assert order[j] in order && order[j].id in OrderIds(order);
      assert PlaceOk(s.locker, j, Cell(s, order[j].id));
      EndedTaskSettles(s.locker, j, Cell(s, order[j].id), acked);
    }
  }

  lemma TasksDoneExact(s: Sys)
    requires Sound(s) && Exact(s) && Enabled(s, TasksDone)
    ensures Exact(Next(s, TasksDone))
  {
    var s' := Next(s, TasksDone);
    assert s' == s.(locker := Settling(s.locker.plan.(acked := AskedIds(s)), 0, false));
    if InFreeLock(s.locker) {
      hide Next, Enabled, Sound, PlaceOk, AckersOk, AskedIds, OrderIds;
      TasksDonePlaces(s);
      TasksDoneAckers(s);
      forall j | 0 <= j < |s.locker.plan.order| ensures PlaceOk(s'.locker, j, Cell(s', s.locker.plan.order[j].id)) {
        assert Cell(s', s.locker.plan.order[j].id) == Cell(s, s.locker.plan.order[j].id);
      }
    }
  }

  lemma TasksDoneAckers(s: Sys)
    requires Sound(s) && Enabled(s, TasksDone) && PlacesOk(s)
    ensures AckersOk(s.locker.plan.(acked := AskedIds(s)))
  {
    OrderOk(s);
    TasksDonePlaces(s);
    assert |s.locker.tasks| == Chosen(s.locker.plan.order, s.locker.plan.batch) by { assert LockerOk(s); }
    hide Sound, PlaceOk, DistinctIds, Chosen, Listed, OrderIds, PlacesOk;
  }

  // ---- The loops of syncs and the release --------------------------------------------------------

  /** Only the locker moved, or the flags of the blocker whose turn it is. */
  lemma TurnExact(s: Sys, s': Sys, c: B.Blocker)
    requires Sound(s) && Exact(s) && AtTurn(s.locker) && InLock(s'.locker) && s'.strays == s.strays
    requires s'.locker.plan == s.locker.plan
    requires forall id :: Cell(s', id) == if id == TurnId(s.locker) then c else Cell(s, id)
    requires s.locker.plan.free ==> AckedOk(s'.locker)
    requires forall j :: 0 <= j < |s.locker.plan.order| && PlaceOk(s.locker, j, Cell(s, s.locker.plan.order[j].id)) ==>
               PlaceOk(s'.locker, j, if j == s.locker.k then c else Cell(s, s.locker.plan.order[j].id))
    ensures Exact(s')
  {
    OrderOk(s);
    hide Sound, PlaceOk, AckedOk;
    var order := s.locker.plan.order;
    if s.locker.plan.free {
      forall j | 0 <= j < |order| ensures PlaceOk(s'.locker, j, Cell(s', order[j].id)) {
        assert PlaceOk(s.locker, j, Cell(s, order[j].id));
      }
    }
  }

  lemma LookKeepsPlace(l: Locker, j: nat, c: B.Blocker, synced: bool)
    requires Syncing(l) && AtTurn(l) && !l.asleep && j < |l.plan.order| && PlaceOk(l, j, c)
    requires j == l.k ==> synced == B.Synced(c)
    ensures PlaceOk(SyncTurn(l, if synced then l.k + 1 else l.k, !synced), j, c)
  {
    hide Kept;
  }

  lemma WakeKeepsPlace(l: Locker, j: nat, c: B.Blocker)
    requires Syncing(l) && AtTurn(l) && l.asleep && j < |l.plan.order| && PlaceOk(l, j, c)
    ensures PlaceOk(SyncTurn(l, l.k, false), j, if j == l.k then c.(answered := false) else c)
  {
    hide Kept;
  }

  lemma SyncExact(s: Sys, e: Event)
    requires Sound(s) && Exact(s) && Enabled(s, e) && (e.SyncLooks? || e.SyncWakes?)
    ensures Exact(Next(s, e))
  {
    assert s.locker.plan.free ==> AckedOk(s.locker);
    hide Sound, Exact, PlaceOk, AckersOk;
    var s' := Next(s, e);
    var order := s.locker.plan.order;
    forall j | 0 <= j < |order| && PlaceOk(s.locker, j, Cell(s, order[j].id))
      ensures PlaceOk(s'.locker, j, if j == s.locker.k then Cell(s', TurnId(s.locker)) else Cell(s, order[j].id))
    {
      if e.SyncLooks? { LookKeepsPlace(s.locker, j, Cell(s, order[j].id), B.Synced(Cell(s, TurnId(s.locker)))); }
      else { WakeKeepsPlace(s.locker, j, Cell(s, order[j].id)); }
    }
    TurnExact(s, s', Cell(s', TurnId(s.locker)));
  }

  /** The blocker whose turn it is goes on being blocked exactly if the plan keeps it. */
  lemma ReleaseKeepsPlace(l: Locker, j: nat, c: B.Blocker, more: nat)
    requires l.Releasing? && AtTurn(l) && j < |l.plan.order| && PlaceOk(l, j, c)
    requires l.n == |Picked(l.plan.order[..l.k], l.plan.acked)|
    ensures PlaceOk(Releasing(l.plan, l.k + 1, more), j,
                    if j == l.k && c.blocked && l.n + 1 > l.plan.batch then B.RequestUnblock(c).0 else c)
  {
  }

  lemma TurnIsAcked(l: Locker, c: B.Blocker)
    requires l.Releasing? && AtTurn(l) && PlaceOk(l, l.k, c)
    ensures c.blocked <==> l.plan.order[l.k].id in l.plan.acked
  {
    hide Kept;
  }

  lemma CountIsPicked(s: Sys)
    requires Exact(s) && s.locker.Releasing? && s.locker.plan.free && AtTurn(s.locker)
    ensures s.locker.n == |Picked(s.locker.plan.order[..s.locker.k], s.locker.plan.acked)|
    ensures Cell(s, TurnId(s.locker)).blocked <==> TurnId(s.locker) in s.locker.plan.acked
  {
    hide AckersOk, Kept, PlaceOk, Picked, Cell, StraysOff;
    assert AckedOk(s.locker) && PlacesOk(s);
    hide Exact;
    TurnIsAcked(s.locker, Cell(s, TurnId(s.locker)));
  }

  lemma PickedGrows(order: seq<Key>, ids: set<nat>, k: nat)
    requires k < |order|
    ensures |Picked(order[..k + 1], ids)| == |Picked(order[..k], ids)| + if order[k].id in ids then 1 else 0
  {
    assert order[..k + 1][..k] == order[..k];
  }

  lemma ReleaseTurnCounts(s: Sys)
    requires s.locker.Releasing? && AtTurn(s.locker)
    ensures var Releasing(plan, k, n) := s.locker;
            ReleaseTurn(s).locker == Releasing(plan, k + 1, n + if Cell(s, TurnId(s.locker)).blocked then 1 else 0)
  {
  }

  /** The locker counts those it finds blocked: they are the acked. */
  lemma ReleaseCounts(s: Sys)
    requires Exact(s) && s.locker.Releasing? && s.locker.plan.free && AtTurn(s.locker)
    ensures AckedOk(ReleaseTurn(s).locker)
  {
    hide Exact, AckersOk, Picked, ReleaseTurn, Cell;
    CountIsPicked(s);
    ReleaseTurnCounts(s);
    AckersStand(s);
    PickedGrows(s.locker.plan.order, s.locker.plan.acked, s.locker.k);
  }

  lemma AckersStand(s: Sys)
    requires Exact(s) && s.locker.Releasing? && s.locker.plan.free
    ensures AckersOk(s.locker.plan)
  {
    hide AckersOk, PlacesOk, StraysOff, Picked;
  }

  lemma ReleaseExact(s: Sys)
    requires Sound(s) && Exact(s) && s.locker.Releasing? && AtTurn(s.locker)
    ensures Exact(ReleaseTurn(s))
  {
    var s' := ReleaseTurn(s);
    if s.locker.plan.free {
      ReleaseCounts(s);
      CountIsPicked(s);
      hide Sound, Chosen, PlaceOk, AckedOk;
      var p, k := s.locker.plan, s.locker.k;
      forall j | 0 <= j < |p.order| && PlaceOk(s.locker, j, Cell(s, p.order[j].id))
        ensures PlaceOk(s'.locker, j, if j == k then Cell(s', TurnId(s.locker)) else Cell(s, p.order[j].id))
      {
        ReleaseKeepsPlace(s.locker, j, Cell(s, p.order[j].id), s'.locker.n);
      }
      TurnExact(s, s', Cell(s', TurnId(s.locker)));
    }
  }

  lemma LoopExact(s: Sys, e: Event)
    requires Exact(s) && Enabled(s, e) && (e.SyncDone? || e.ReleaseDone?)
    ensures Exact(Next(s, e))
  {
    hide Kept, AckersOk;
    var s' := Next(s, e);
    if s.locker.plan.free {
      var order := s.locker.plan.order;
      forall j | 0 <= j < |order| ensures PlaceOk(s'.locker, j, Cell(s', order[j].id)) {
        assert PlaceOk(s.locker, j, Cell(s, order[j].id));
      }
    }
  }

  lemma UnlockedIsIdle(s: Sys)
    ensures Unlocked(s).locker == Idle
  {
  }

  lemma StepExact(s: Sys, e: Event)
    requires Sound(s) && Exact(s) && Enabled(s, e)
    ensures Exact(Next(s, e))
  {
    UnlockedIsIdle(s);
    hide Sound, PlacesOk, AckedOk, StraysOff, ReleaseTurn, LockLook, Unlocked, WithAnswer, Moved, WorkerMoved, L.Next;
    match e
    case Member(m) => MemberExact(s, m);
    case WorkerMoves(id, m) => WorkerExact(s, id, m);
    case LockLooks => LockLookExact(s);
    case TaskMoves(j, m) => TaskExact(s, j, m);
    case StrayMoves(i, m) => StrayExact(s, i, m);
    case TasksDone => TasksDoneExact(s);
    case SyncLooks => SyncExact(s, e);
    case SyncWakes => SyncExact(s, e);
    case ReleaseNext => ReleaseExact(s);
    case SyncDone => LoopExact(s, e);
    case ReleaseDone => LoopExact(s, e);
    case SyncCancelled(lost) => UnlockedIsIdle(WithAnswer(s, lost));
    case _ =>
  }
}
