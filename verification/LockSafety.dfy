/** What the locking protocol keeps over all runs, and whom a lock that returns has blocked. */
module LockSafety {
  import B = Blocker
  import opened BlockerManager
  import L = BlockerLedger
  import opened LockProtocol

  // ---- The structure every run keeps ---------------------------------------------------------------

  predicate LockerOk(s: Sys)
  {
    var l := s.locker;
    && (InLock(l) <==> s.ledger.book.locked)
    && (InLock(l) ==>
          && l.plan.order == Sort(Keys(Blockers(s)))
          && l.plan.batch == CalcBatch(s.ledger.book.conf, |Blockers(s)|) <= |Blockers(s)|)
    && (Syncing(l) || l.Releasing? ==> l.k <= |l.plan.order|)
    && (l.Requesting? ==>
          && |l.tasks| == Chosen(l.plan.order, l.plan.batch)
          && forall j :: 0 <= j < |l.tasks| ==> l.tasks[j].id == l.plan.order[j].id)
  }

  /** A worker that waits has a blocker that was listed, and no lost wakeup. */
  predicate WorkerOk(s: Sys, id: nat)
  {
    && (!Worker(s, id).Away? ==> Home(s.ledger, id))
    && B.WorkerReachable(Cell(s, id), Worker(s, id))
  }

  /** An id that is listed, or was. */
  predicate Home(l: L.Ledger, id: nat) { id in L.IdsOf(l.book.blockers) || id in l.removed }

  predicate StraysOk(s: Sys) { forall i :: 0 <= i < |s.strays| ==> Home(s.ledger, s.strays[i].id) }

  ghost predicate Sound(s: Sys)
  {
    L.Balanced(s.ledger) && LockerOk(s) && StraysOk(s) && forall id :: WorkerOk(s, id)
  }

  /** The sorted list is the list: as many keys, the same ids, none twice. */
  lemma OrderFacts(s: Sys)
    requires L.Balanced(s.ledger)
    ensures var order := Sort(Keys(Blockers(s)));
            && |order| == |Blockers(s)| && DistinctIds(order) && Sorted(order)
            && (forall j :: 0 <= j < |order| ==> order[j].id in Listed(s))
            && (forall id :: id in Listed(s) ==> exists j :: 0 <= j < |order| && order[j].id == id)
  {
    var bs := Blockers(s);
    var keys := Keys(bs);
    SortMeaning(keys);
    SortedIdsDistinct(keys);
    var order := Sort(keys);
    forall j | 0 <= j < |order| ensures order[j].id in Listed(s) {
      assert order[j] in keys;
      var i :| 0 <= i < |bs| && keys[i] == order[j];
      assert bs[i] in bs;
    }
    forall id | id in Listed(s) ensures exists j :: 0 <= j < |order| && order[j].id == id {
      var i :| 0 <= i < |bs| && bs[i].key.id == id;
      assert keys[i] in order;
    }
  }

  lemma UnlockedCell(s: Sys, id: nat)
    requires s.ledger.book.locked
    ensures Cell(Unlocked(s), id) ==
            if id in L.RequestIdsOf(s.ledger.book.requests) then B.NEW_BLOCKER
            else if id in Listed(s) then B.RequestUnblock(Cell(s, id)).0 else Cell(s, id)
  {
  }

  /** No ledger step takes an id out of the listed and removed; what it lists anew was neither. */
  lemma HomesKept(l: L.Ledger, e: L.Event)
    requires L.Balanced(l) && L.Enabled(l, e)
    ensures var l' := L.Next(l, e);
            forall id :: Home(l, id) ==> Home(l', id)
  {
    match e
    case Add(priority) =>
      L.AddLists(l, priority);
      hide L.IdsOf, L.RequestIdsOf, L.InvalidIds, L.DistinctBlockers, L.DistinctRequests;
      var l' := L.Next(l, e);
      forall id | Home(l, id) ensures Home(l', id) {
        assert L.Lists(l, l', id, id in L.IdsOf(l.book.blockers) || (!l.book.locked && id == l.book.nextId),
                       id in L.RequestIdsOf(l.book.requests) || (l.book.locked && id == l.book.nextId),
                       id in L.InvalidIds(l.book.blockers));
      }
    case Remove(id) => L.RemoveLists(l, id);
    case UnlockAll(asked) =>
      forall id ensures !(id in L.IdsOf(l.book.blockers) && id in L.RequestIdsOf(l.book.requests)) { assert L.IdOk(l,
        id); }
      L.UnlockIds(l.book, asked);
    case _ =>
  }

  /** Asking changes nothing that a worker waits for. */
  lemma AskKeepsWorker(c: B.Blocker, pc: B.Pc)
    requires B.WorkerReachable(c, pc)
    ensures B.WorkerReachable(B.RequestUnblock(c).0, pc) && B.WorkerReachable(B.RequestBlock(c).0, pc)
  {
  }

  lemma UnlockedSound(s: Sys)
    requires Sound(s)
    ensures Sound(Unlocked(s)) && Unlocked(s).strays == s.strays && !Unlocked(s).ledger.book.locked
    ensures forall id :: Home(s.ledger, id) ==> Home(Unlocked(s).ledger, id)
  {
    if !s.ledger.book.locked {
      var s' := Unlocked(s);
      forall id ensures WorkerOk(s', id) { assert WorkerOk(s, id); }
    } else {
      var e := L.UnlockAll(Asked(s));
      L.StepKeeps(s.ledger, e);
      HomesKept(s.ledger, e);
      var s' := Unlocked(s);
      hide L.Next, L.Balanced, L.IdsOf;
      forall id ensures WorkerOk(s', id) {
        assert WorkerOk(s, id);
        UnlockedCell(s, id);
        if id in L.RequestIdsOf(s.ledger.book.requests) { QueuedIsNew(s.ledger, id); }
      }
    }
  }

  lemma QueuedIsNew(l: L.Ledger, id: nat)
    requires L.Balanced(l) && (id in L.RequestIdsOf(l.book.requests) || id >= l.book.nextId)
    ensures !Home(l, id)
  {
    assert L.IdOk(l, id);
  }

  lemma MemberSound(s: Sys, m: L.Event)
    requires Sound(s) && Enabled(s, Member(m))
    ensures Sound(Next(s, Member(m)))
  {
    L.StepKeeps(s.ledger, m);
    HomesKept(s.ledger, m);
    var s' := Next(s, Member(m));
    if s.ledger.book.locked {
      L.ListIsFrozenWhileLocked(s.ledger, m);
      assert |Keys(Blockers(s'))| == |Blockers(s')|;
    }
    hide L.Next, L.Balanced, L.IdsOf, AddBlocker, RemoveBlocker;
    forall id ensures WorkerOk(s', id) {
      assert WorkerOk(s, id);
      if id == s.ledger.book.nextId { QueuedIsNew(s.ledger, id); }
    }
  }

  /** A step that only moves flags and tokens of one blocker, its worker, the locker or the strays. */
  lemma QuietSound(s: Sys, s': Sys)
    requires Sound(s) && s'.ledger == s.ledger && LockerOk(s') && StraysOk(s')
    requires forall id :: WorkerOk(s, id) ==> WorkerOk(s', id)
    ensures Sound(s')
  {
  }

  lemma ReadySound(s: Sys, s': Sys, ready: bool)
    requires Sound(s) && s' == WithReady(s, ready).(locker := s'.locker) && !InLock(s.locker) && !InLock(s'.locker)
    ensures Sound(s')
  {
    forall id ensures L.IdOk(s'.ledger, id) { assert L.IdOk(s.ledger, id); }
    forall id ensures WorkerOk(s', id) { assert WorkerOk(s, id); }
  }

  lemma WorkerSound(s: Sys, id: nat, m: WorkerMove)
    requires Sound(s) && Enabled(s, WorkerMoves(id, m))
    ensures Sound(Next(s, WorkerMoves(id, m)))
  {
    hide L.Balanced, L.IdsOf;
    var s' := Next(s, WorkerMoves(id, m));
    forall k ensures WorkerOk(s', k) { assert WorkerOk(s, k) && WorkerOk(s, id); }
    QuietSound(s, s');
  }

  lemma TaskKeepsWorker(t: TaskPc, c: B.Blocker, m: TaskMove, pc: B.Pc)
    requires B.WorkerReachable(c, pc) && CanMove(t, c, m)
    ensures B.WorkerReachable(Moved(t, c, m).1, pc)
  {
  }

  lemma TaskSound(s: Sys, e: Event)
    requires Sound(s) && Enabled(s, e) && (e.TaskMoves? || e.StrayMoves?)
    ensures Sound(Next(s, e))
  {
    hide L.Balanced, L.IdsOf, Moved;
    var s' := Next(s, e);
    var t := if e.TaskMoves? then s.locker.tasks[e.j] else s.strays[e.i];
    forall k ensures WorkerOk(s', k) {
      assert WorkerOk(s, k) && WorkerOk(s, t.id);
      TaskKeepsWorker(t.pc, Cell(s, t.id), e.step, Worker(s, t.id));
    }
    assert CanMove(t.pc, Cell(s, t.id), e.step) && !t.pc.Finished?;
    QuietSound(s, s');
  }

  lemma LockLookSound(s: Sys)
    requires Sound(s) && s.locker.CheckReady?
    ensures Sound(LockLook(s))
  {
    hide L.Balanced, L.IdsOf, Sort, Chosen, CalcBatch, Sorted, DistinctIds;
    var s' := LockLook(s);
    if s'.locker.Requesting? { L.StepKeeps(s.ledger, L.Lock); }
    forall k ensures WorkerOk(s', k) { assert WorkerOk(s, k); }
  }

  lemma LockerSound(s: Sys, e: Event)
    requires Sound(s) && Enabled(s, e)
    requires e.TasksDone? || e.SyncLooks? || e.SyncWakes? || e.SyncDone? || e.ReleaseDone? || e.LockCalled?
    ensures Sound(Next(s, e))
  {
    hide L.Balanced, L.IdsOf;
    var s' := Next(s, e);
    forall k ensures WorkerOk(s', k) {
      assert WorkerOk(s, k);
    }
    QuietSound(s, s');
  }

  lemma ReleaseSound(s: Sys)
    requires Sound(s) && Enabled(s, ReleaseNext)
    ensures Sound(ReleaseTurn(s))
  {
    hide L.Balanced, L.IdsOf;
    var s' := ReleaseTurn(s);
    forall k ensures WorkerOk(s', k) {
      assert WorkerOk(s, k);
      AskKeepsWorker(Cell(s, k), Worker(s, k));
    }
    QuietSound(s, s');
  }

  lemma AnswerSound(s: Sys, taken: bool)
    requires Sound(s) && AtTurn(s.locker)
    ensures Sound(WithAnswer(s, taken))
  {
    hide L.Balanced, L.IdsOf;
    var s1 := WithAnswer(s, taken);
    forall k ensures WorkerOk(s1, k) { assert WorkerOk(s, k) && WorkerOk(s, TurnId(s.locker)); }
    QuietSound(s, s1);
  }

  /** The request tasks of a cancelled lock are for blockers that were listed. */
  lemma TasksCancelledSound(s: Sys)
    requires Sound(s) && s.locker.Requesting?
    ensures Sound(Next(s, TasksCancelled))
  {
    var u, s' := Unlocked(s), Next(s, TasksCancelled);
    UnlockedSound(s);
    TasksHome(s);
    assert u.strays == s.strays && u.locker == Idle;
    hide L.Balanced, Home, Unlocked;
    forall k ensures WorkerOk(s', k) { assert WorkerOk(u, k); }
    forall i | 0 <= i < |s'.strays| ensures Home(s'.ledger, s'.strays[i].id) {
      if i < |s.strays| { assert Home(u.ledger, u.strays[i].id); }
    }
    assert LockerOk(u);
  }

  /** The request tasks are for listed blockers; so they are, or were, after an unlock. */
  lemma TasksHome(s: Sys)
    requires Sound(s) && s.locker.Requesting?
    ensures forall j :: 0 <= j < |s.locker.tasks| ==> Home(Unlocked(s).ledger, s.locker.tasks[j].id)
  {
    OrderFacts(s);
    assert LockerOk(s);
    HomesKept(s.ledger, L.UnlockAll(Asked(s)));
    hide L.Balanced, L.Next, Sort, CalcBatch, LockerOk, Sorted, DistinctIds;
    forall j | 0 <= j < |s.locker.tasks| ensures Home(Unlocked(s).ledger, s.locker.tasks[j].id) {
      assert s.locker.tasks[j].id in Listed(s);
      assert Home(s.ledger, s.locker.tasks[j].id);
    }
  }

  lemma StepSound(s: Sys, e: Event)
    requires Sound(s) && Enabled(s, e)
    ensures Sound(Next(s, e))
  {
    match e
    case Member(m) => MemberSound(s, m);
    case WorkerMoves(id, m) => WorkerSound(s, id, m);
    case LockLooks => LockLookSound(s);
    case LockWakes => ReadySound(s, Next(s, e), false);
    case LockGivesUp(lost) => ReadySound(s, Next(s, e), s.ledger.book.ready && !lost);
    case TaskMoves(_, _) => TaskSound(s, e);
    case StrayMoves(_, _) => TaskSound(s, e);
    case ReleaseNext => ReleaseSound(s);
    case TasksCancelled => TasksCancelledSound(s);
    case SyncCancelled(lost) => AnswerSound(s, lost); UnlockedSound(WithAnswer(s, lost));
    case UnlockCalled => UnlockedSound(s);
    case _ => LockerSound(s, e);
  }
}
