/** Runs that can always be made: from an idle manager with blockers enough, a lock that blocks
    exactly the batch. */
module LockRounds {
  import B = Blocker
  import opened BlockerManager
  import L = BlockerLedger
  import opened LockProtocol
  import opened LockSafety
  import opened LockPlan
  import opened LockRuns

  // ---- Smooth runs -----------------------------------------------------------------------------------

  /** Nobody joins, leaves, lapses, cancels or unlocks, and no straggler moves. */
  predicate Smooth(e: Event)
  {
    match e
    case WorkerMoves(_, _) => true
    case TaskMoves(_, m) => m.Begin? || m.Check?
    case LockCalled => true
    case LockLooks => true
    case TasksDone => true
    case SyncLooks => true
    case SyncDone => true
    case ReleaseNext => true
    case ReleaseDone => true
    case _ => false
  }

  ghost predicate SmoothRun(s: Sys, es: seq<Event>, s': Sys)
  {
    Run(s, es, s') && forall e :: e in es ==> Smooth(e)
  }

  lemma {:induction false} RunsJoin(a: Sys, es: seq<Event>, b: Sys, fs: seq<Event>, c: Sys)
    requires Run(a, es, b) && Run(b, fs, c)
    ensures Run(a, es + fs, c)
    decreases |es|
  {
    hide Next, Enabled;
    if es == [] {
      assert es + fs == fs;
    } else {
      assert (es + fs)[1..] == es[1..] + fs;
      RunsJoin(Next(a, es[0]), es[1..], b, fs, c);
    }
  }

  lemma OneStep(s: Sys, e: Event)
    requires Enabled(s, e)
    ensures Run(s, [e], Next(s, e))
  {
    hide Next, Enabled;
    assert Run(Next(s, e), [], Next(s, e));
    assert [e][1..] == [];
  }

  lemma SmoothStep(s: Sys, e: Event)
    requires Enabled(s, e) && Smooth(e)
    ensures SmoothRun(s, [e], Next(s, e))
  {
    OneStep(s, e);
  }

  lemma SmoothJoin(a: Sys, es: seq<Event>, b: Sys, fs: seq<Event>, c: Sys)
    requires SmoothRun(a, es, b) && SmoothRun(b, fs, c)
    ensures SmoothRun(a, es + fs, c)
  {
    RunsJoin(a, es, b, fs, c);
  }

  lemma {:induction false} RunSound(s: Sys, es: seq<Event>, s': Sys)
    requires Sound(s) && Run(s, es, s')
    ensures Sound(s')
    decreases |es|
  {
    hide Sound, Next, Enabled;
    if es != [] {
      StepSound(s, es[0]);
      RunSound(Next(s, es[0]), es[1..], s');
    }
  }

  // ---- Workers answer --------------------------------------------------------------------------------

  /** All but one blocker's flags, its worker and the locker are as they were. */
  ghost predicate OnlyCell(s: Sys, s': Sys, id: nat)
  {
    && s'.ledger == s.ledger && s'.strays == s.strays
    && (forall k :: k != id ==> Cell(s', k) == Cell(s, k))
  }

  /** A worker's look answers: the flags then agree. */
  lemma LookAnswers(s: Sys, id: nat)
    requires Worker(s, id).Looking?
    ensures Enabled(s, WorkerMoves(id, Look))
    ensures var s' := Next(s, WorkerMoves(id, Look));
            && OnlyCell(s, s', id) && s'.locker == s.locker
            && Cell(s', id).block == Cell(s, id).block && B.Synced(Cell(s', id))
  {
  }

  /** Wherever a listed blocker's worker is, it can come to look. */
  lemma WorkerComesToLook(s: Sys, id: nat) returns (es: seq<Event>, s': Sys)
    requires Sound(s) && id in Listed(s) && !B.Synced(Cell(s, id))
    ensures SmoothRun(s, es, s') && OnlyCell(s, s', id) && s'.locker == s.locker
    ensures Worker(s', id).Looking? && Cell(s', id).block == Cell(s, id).block
  {
    assert WorkerOk(s, id);
    hide Sound, Listed;
    var w := Worker(s, id);
    if w.Looking? {
      es, s' := [], s;
      assert Run(s, [], s);
    } else {
      var e := WorkerMoves(id, if w.Away? then Enter else Rouse);
      es, s' := [e], Next(s, e);
      SmoothStep(s, e);
    }
  }

  /** The flags of a listed blocker can always be brought to agree, by its worker alone. */
  lemma WorkerAnswers(s: Sys, id: nat) returns (es: seq<Event>, s': Sys)
    requires Sound(s) && id in Listed(s)
    ensures SmoothRun(s, es, s') && Sound(s') && OnlyCell(s, s', id) && s'.locker == s.locker
    ensures Cell(s', id).block == Cell(s, id).block && B.Synced(Cell(s', id))
  {
    if B.Synced(Cell(s, id)) {
      es, s' := [], s;
      assert Run(s, [], s);
    } else {
      var fs, s1 := WorkerComesToLook(s, id);
      LookAnswers(s1, id);
      var e := WorkerMoves(id, Look);
      SmoothStep(s1, e);
      es, s' := fs + [e], Next(s1, e);
      SmoothJoin(s, fs, s1, [e], s');
      RunSound(s, es, s');
    }
  }

  // ---- Every request is answered -----------------------------------------------------------------

  predicate Blocked(c: B.Blocker) { c.block && c.blocked }

  /** The first j request tasks have ended with their blockers blocked, the others have not begun. */
  ghost predicate AskedUpTo(s: Sys, j: nat)
  {
    && s.locker.Requesting? && j <= |s.locker.tasks| <= |s.locker.plan.order|
    && (forall i :: 0 <= i < |s.locker.tasks| ==> s.locker.tasks[i].id == s.locker.plan.order[i].id)
    && (forall i :: 0 <= i < j ==> s.locker.tasks[i].pc.Finished? && Blocked(Cell(s, s.locker.plan.order[i].id)))
    && (forall i :: j <= i < |s.locker.tasks| ==> s.locker.tasks[i].pc.Unstarted?)
  }

  lemma TaskMoves1(s: Sys, j: nat, m: TaskMove)
    requires s.locker.Requesting? && j < |s.locker.tasks|
    requires CanMove(s.locker.tasks[j].pc, Cell(s, s.locker.tasks[j].id), m)
    requires !m.GiveUp?
    ensures Enabled(s, TaskMoves(j, m))
    ensures var t := s.locker.tasks[j]; var s', (pc, c) := Next(s, TaskMoves(j, m)), Moved(t.pc, Cell(s, t.id), m);
            && OnlyCell(s, s', t.id) && Cell(s', t.id) == c
            && s'.locker == Requesting(s.locker.plan, s.locker.tasks[j := t.(pc := pc)])
  {
    hide Moved;
    assert s.locker.plan.(lapsed := s.locker.plan.lapsed || m.GiveUp?) == s.locker.plan;
  }

  /** A request is made; its blocker is then asked. */
  lemma BeginOne(s: Sys, j: nat) returns (s': Sys)
    requires Sound(s) && AskedUpTo(s, j) && j < |s.locker.tasks|
    ensures SmoothRun(s, [TaskMoves(j, Begin)], s') && Sound(s') && OnlyCell(s, s', s.locker.tasks[j].id)
    ensures Cell(s', s.locker.tasks[j].id).block
    ensures s'.locker == Requesting(s.locker.plan, s.locker.tasks[j := s.locker.tasks[j].(pc := Checking)])
  {
    TaskMoves1(s, j, Begin);
    SmoothStep(s, TaskMoves(j, Begin));
    StepSound(s, TaskMoves(j, Begin));
    s' := Next(s, TaskMoves(j, Begin));
    hide Sound, SmoothRun, Next, Enabled;
  }

  /** A request task that finds its blocker in sync ends. */
  lemma EndOne(s: Sys, j: nat) returns (s': Sys)
    requires Sound(s) && s.locker.Requesting? && j < |s.locker.tasks| && s.locker.tasks[j].pc.Checking?
    requires B.Synced(Cell(s, s.locker.tasks[j].id))
    ensures SmoothRun(s, [TaskMoves(j, Check)], s') && Sound(s') && OnlyLocker(s, s')
    ensures s'.locker == Requesting(s.locker.plan, s.locker.tasks[j := s.locker.tasks[j].(pc := Finished)])
  {
    TaskMoves1(s, j, Check);
    SmoothStep(s, TaskMoves(j, Check));
    StepSound(s, TaskMoves(j, Check));
    s' := Next(s, TaskMoves(j, Check));
    hide Sound, SmoothRun, Next, Enabled;
  }

  /** One more request is made and answered. */
  lemma AskNext(s: Sys, j: nat) returns (es: seq<Event>, s': Sys)
    requires Sound(s) && AskedUpTo(s, j) && j < |s.locker.tasks|
    ensures SmoothRun(s, es, s') && Sound(s') && s'.locker.Requesting? && AskedUpTo(s', j + 1)
    ensures s'.ledger == s.ledger && s'.strays == s.strays && s'.locker.plan == s.locker.plan
    ensures |s'.locker.tasks| == |s.locker.tasks|
  {
    var id := s.locker.tasks[j].id;
    hide Sound, SmoothRun, L.IdsOf, Next, Enabled, DistinctIds, AskedUpTo, Cell;
    TaskAt(s, j);
    var s1 := BeginOne(s, j);
    var fs, s2 := WorkerAnswers(s1, id);
    s' := EndOne(s2, j);
    SmoothJoin(s, [TaskMoves(j, Begin)], s1, fs, s2);
    SmoothJoin(s, [TaskMoves(j, Begin)] + fs, s2, [TaskMoves(j, Check)], s');
    es := [TaskMoves(j, Begin)] + fs + [TaskMoves(j, Check)];
    AskedMore(s, s', j);
  }

  lemma TaskAt(s: Sys, j: nat)
    requires Sound(s) && AskedUpTo(s, j) && j < |s.locker.tasks|
    ensures s.locker.tasks[j].id in Listed(s) && DistinctIds(s.locker.plan.order) && s.locker.tasks[j].pc.Unstarted?
  {
    OrderOk(s);
    var order := s.locker.plan.order;
    hide Sound, Listed, DistinctIds;
    assert order[j] in order && order[j].id in OrderIds(order);
  }

  lemma AskedMore(s: Sys, s': Sys, j: nat)
    requires AskedUpTo(s, j) && j < |s.locker.tasks| && DistinctIds(s.locker.plan.order)
    requires var t := s.locker.tasks[j];
             && s'.locker == Requesting(s.locker.plan, s.locker.tasks[j := t.(pc := Finished)])
             && Blocked(Cell(s', t.id)) && forall k :: k != t.id ==> Cell(s', k) == Cell(s, k)
    ensures AskedUpTo(s', j + 1)
  {
    hide Cell, Blocked;
    var order := s.locker.plan.order;
    forall i | 0 <= i < j + 1 ensures s'.locker.tasks[i].pc.Finished? && Blocked(Cell(s', order[i].id)) {
      if i < j { assert order[i].id != order[j].id; }
    }
  }

  lemma {:induction false} AskAll(s: Sys, j: nat) returns (es: seq<Event>, s': Sys)
    requires Sound(s) && AskedUpTo(s, j)
    ensures SmoothRun(s, es, s') && Sound(s') && s'.locker.Requesting? && AskedUpTo(s', |s'.locker.tasks|)
    ensures s'.ledger == s.ledger && s'.strays == s.strays && s'.locker.plan == s.locker.plan
    ensures |s'.locker.tasks| == |s.locker.tasks|
    decreases |s.locker.tasks| - j
  {
    hide Sound, SmoothRun;
    if j == |s.locker.tasks| {
      es, s' := [], s;
      NoSteps(s);
    } else {
      var fs, s1 := AskNext(s, j);
      var gs, s2 := AskAll(s1, j + 1);
      SmoothJoin(s, fs, s1, gs, s2);
      es, s' := fs + gs, s2;
    }
  }

  lemma NoSteps(s: Sys)
    ensures SmoothRun(s, [], s)
  {
  }

  // ---- The loops go through ------------------------------------------------------------------------

  /** The flags of the j-th of the order. */
  function CellAt(s: Sys, j: nat): B.Blocker
    requires InLock(s.locker) && j < |s.locker.plan.order|
  {
    Cell(s, s.locker.plan.order[j].id)
  }

  /** The flags of the first k of the order agree. */
  ghost predicate SyncedUpTo(s: Sys, k: nat)
    requires InLock(s.locker)
  {
    forall j :: 0 <= j < k && j < |s.locker.plan.order| ==> B.Synced(CellAt(s, j))
  }

  /** No request is made or taken back, and nobody joins or leaves. */
  ghost predicate SameRequests(s: Sys, s': Sys)
  {
    s'.ledger == s.ledger && s'.strays == s.strays && forall k :: Cell(s', k).block == Cell(s, k).block
  }

  /** Everything but the locker is as it was. */
  ghost predicate OnlyLocker(s: Sys, s': Sys)
  {
    s'.ledger == s.ledger && s'.strays == s.strays && forall k :: Cell(s', k) == Cell(s, k)
  }

  /** One turn of a loop of syncs, once the worker has answered. */
  lemma SyncOne(s: Sys) returns (es: seq<Event>, s': Sys)
    requires Sound(s) && Syncing(s.locker) && AtTurn(s.locker) && !s.locker.asleep && SyncedUpTo(s, s.locker.k)
    ensures SmoothRun(s, es, s') && Sound(s') && SameRequests(s, s')
    ensures s'.locker == SyncTurn(s.locker, s.locker.k + 1, false) && SyncedUpTo(s', s.locker.k + 1)
  {
    var order, id := s.locker.plan.order, TurnId(s.locker);
    OrderOk(s);
    assert order[s.locker.k] in order && id in OrderIds(order);
    hide Sound, SmoothRun, OrderIds, DistinctIds;
    var fs, s1 := WorkerAnswers(s, id);
    s' := SyncLooksOn(s1);
    SmoothJoin(s, fs, s1, [SyncLooks], s');
    es := fs + [SyncLooks];
    forall j | 0 <= j < s.locker.k + 1 && j < |order| ensures B.Synced(CellAt(s', j)) {
      if j < s.locker.k { assert B.Synced(CellAt(s, j)); }
      assert CellAt(s', j) == Cell(s1, order[j].id);
    }
  }

  lemma SyncLooksOn(s: Sys) returns (s': Sys)
    requires Sound(s) && Syncing(s.locker) && AtTurn(s.locker) && !s.locker.asleep
    requires B.Synced(Cell(s, TurnId(s.locker)))
    ensures SmoothRun(s, [SyncLooks], s') && Sound(s') && OnlyLocker(s, s')
    ensures s'.locker == SyncTurn(s.locker, s.locker.k + 1, false)
  {
    SmoothStep(s, SyncLooks);
    StepSound(s, SyncLooks);
    s' := Next(s, SyncLooks);
    hide Sound, SmoothRun;
  }

  /** A loop of syncs runs to its end, and leaves all flags in agreement. */
  lemma {:induction false} SyncAll(s: Sys) returns (es: seq<Event>, s': Sys)
    requires Sound(s) && Syncing(s.locker) && !s.locker.asleep && s.locker.k <= |s.locker.plan.order|
    requires SyncedUpTo(s, s.locker.k)
    ensures SmoothRun(s, es, s') && Sound(s') && SameRequests(s, s')
    ensures s'.locker == SyncTurn(s.locker, |s.locker.plan.order|, false)
    ensures SyncedUpTo(s', |s.locker.plan.order|)
    decreases |s.locker.plan.order| - s.locker.k
  {
    hide SmoothRun, Sound, SyncedUpTo;
    if s.locker.k == |s.locker.plan.order| {
      es, s' := [], s;
      NoSteps(s);
    } else {
      var es1, s1 := SyncOne(s);
      var fs, s2 := SyncAll(s1);
      SmoothJoin(s, es1, s1, fs, s2);
      es, s' := es1 + fs, s2;
    }
  }

  /** In the release loop: all flags agree but for those let go, of the first m all are asked to
      block but for those let go, and those let go are the ones passed beyond the batch. */
  ghost predicate ReleasedUpTo(s: Sys, m: nat)
  {
    && s.locker.Releasing? && s.locker.k <= |s.locker.plan.order| && s.locker.plan.batch <= m <= |s.locker.plan.order|
    && (if s.locker.k <= s.locker.plan.batch then s.locker.n == s.locker.k else s.locker.n >= s.locker.plan.batch)
    && (forall j :: 0 <= j < s.locker.k ==> (CellAt(s, j).block <==> j < s.locker.plan.batch))
    && forall j :: s.locker.k <= j < |s.locker.plan.order| ==>
         B.Synced(CellAt(s, j)) && (j < m ==> CellAt(s, j).block)
  }

  lemma ReleaseOne(s: Sys, m: nat)
    requires Sound(s) && ReleasedUpTo(s, m) && AtTurn(s.locker)
    ensures Enabled(s, ReleaseNext)
    ensures var s' := Next(s, ReleaseNext);
            && ReleasedUpTo(s', m) && s'.ledger == s.ledger && s'.strays == s.strays
            && s'.locker.plan == s.locker.plan && s'.locker.k == s.locker.k + 1
  {
    OrderOk(s);
    hide Sound, Listed, OrderIds;
    var order, k, s' := s.locker.plan.order, s.locker.k, Next(s, ReleaseNext);
    assert forall j :: 0 <= j < |order| && j != k ==> order[j].id != order[k].id;
    assert forall j :: 0 <= j < |order| && j != k ==> CellAt(s', j) == CellAt(s, j);
    assert B.Synced(CellAt(s, k)) && (k < m ==> CellAt(s, k).block);
  }

  /** The release loop lets go of everyone beyond the batch. */
  lemma {:induction false} ReleaseAll(s: Sys, m: nat) returns (es: seq<Event>, s': Sys)
    requires Sound(s) && ReleasedUpTo(s, m)
    ensures SmoothRun(s, es, s') && Sound(s') && ReleasedUpTo(s', m)
    ensures s'.ledger == s.ledger && s'.strays == s.strays && s'.locker.plan == s.locker.plan
    ensures s'.locker.k == |s.locker.plan.order|
    decreases |s.locker.plan.order| - s.locker.k
  {
    hide SmoothRun, Sound;
    if s.locker.k == |s.locker.plan.order| {
      es, s' := [], s;
      NoSteps(s);
    } else {
      ReleaseOne(s, m);
      SmoothStep(s, ReleaseNext);
      StepSound(s, ReleaseNext);
      var s1 := Next(s, ReleaseNext);
      hide Next, Enabled, ReleasedUpTo;
      var fs, s2 := ReleaseAll(s1, m);
      SmoothJoin(s, [ReleaseNext], s1, fs, s2);
      es, s' := [ReleaseNext] + fs, s2;
    }
  }

  /** The end of one of the locker's loops. */
  lemma StepOn(s: Sys, e: Event) returns (s': Sys)
    requires Sound(s) && Enabled(s, e) && (e.SyncDone? || e.ReleaseDone?)
    ensures SmoothRun(s, [e], s') && Sound(s') && OnlyLocker(s, s')
    ensures s'.locker == if e.ReleaseDone? then Resettling(s.locker.plan, 0, false)
                         else if s.locker.Settling? then Releasing(s.locker.plan, 0, 0) else Held(s.locker.plan)
  {
    SmoothStep(s, e);
    StepSound(s, e);
    s' := Next(s, e);
    hide Sound, SmoothRun;
  }

  /** Exactly the batch is asked to block, and all have answered. */
  ghost predicate HoldsTheBatch(s: Sys)
    requires InLock(s.locker)
  {
    forall j :: 0 <= j < |s.locker.plan.order| ==>
      && (CellAt(s, j).block <==> j < s.locker.plan.batch)
      && (CellAt(s, j).blocked <==> j < s.locker.plan.batch)
  }

  /** From the end of the requests to the end of the first sync: the first m are asked. */
  lemma Settle(s: Sys, m: nat) returns (es: seq<Event>, s': Sys)
    requires Sound(s) && s.locker.Settling? && s.locker.k == 0 && !s.locker.asleep
    requires s.locker.plan.batch <= m <= |s.locker.plan.order| && forall j :: 0 <= j < m ==> CellAt(s, j).block
    ensures SmoothRun(s, es, s') && Sound(s') && s'.ledger == s.ledger && s'.strays == s.strays
    ensures s'.locker == Releasing(s.locker.plan, 0, 0) && ReleasedUpTo(s', m)
  {
    hide SmoothRun, Sound;
    var e1, s1 := SyncAll(s);
    s' := StepOn(s1, SyncDone);
    SmoothJoin(s, e1, s1, [SyncDone], s');
    es := e1 + [SyncDone];
    forall j | 0 <= j < |s.locker.plan.order| ensures B.Synced(CellAt(s', j)) && (j < m ==> CellAt(s', j).block) {
      assert CellAt(s', j) == CellAt(s1, j) && CellAt(s1, j).block == CellAt(s, j).block;
    }
  }

  /** From the end of the release to the return of the lock. */
  lemma Resettle(s: Sys, m: nat) returns (es: seq<Event>, s': Sys)
    requires Sound(s) && ReleasedUpTo(s, m) && s.locker.k == |s.locker.plan.order|
    ensures SmoothRun(s, es, s') && Sound(s') && s'.ledger == s.ledger && s'.strays == s.strays
    ensures s'.locker == Held(s.locker.plan) && HoldsTheBatch(s')
  {
    hide SmoothRun, Sound;
    var s1 := StepOn(s, ReleaseDone);
    var e2, s2 := SyncAll(s1);
    s' := StepOn(s2, SyncDone);
    SmoothJoin(s, [ReleaseDone], s1, e2, s2);
    SmoothJoin(s, [ReleaseDone] + e2, s2, [SyncDone], s');
    es := [ReleaseDone] + e2 + [SyncDone];
    forall j | 0 <= j < |s.locker.plan.order|
      ensures CellAt(s', j).block <==> j < s.locker.plan.batch
      ensures CellAt(s', j).blocked <==> j < s.locker.plan.batch
    {
      assert CellAt(s', j) == CellAt(s2, j) && CellAt(s2, j).block == CellAt(s1, j).block == CellAt(s, j).block;
    }
  }

  /** From the end of the requests to the return of the lock. */
  lemma SettleAndHold(s: Sys, m: nat) returns (es: seq<Event>, s': Sys)
    requires Sound(s) && s.locker.Settling? && s.locker.k == 0 && !s.locker.asleep
    requires s.locker.plan.batch <= m <= |s.locker.plan.order| && forall j :: 0 <= j < m ==> CellAt(s, j).block
    ensures SmoothRun(s, es, s') && Sound(s') && s'.ledger == s.ledger && s'.strays == s.strays
    ensures s'.locker == Held(s.locker.plan) && HoldsTheBatch(s')
  {
    var e1, s1 := Settle(s, m);
    var e2, s2 := ReleaseAll(s1, m);
    var e3, s3 := Resettle(s2, m);
    hide *;
    SmoothJoin(s, e1, s1, e2, s2);
    SmoothJoin(s, e1 + e2, s2, e3, s3);
    es, s' := e1 + e2 + e3, s3;
  }

  // ---- A whole lock ----------------------------------------------------------------------------------

  function BatchNow(s: Sys): nat { CalcBatch(s.ledger.book.conf, |Blockers(s)|) }

  /** There are blockers enough. */
  predicate Fits(s: Sys) { BatchNow(s) <= |Blockers(s)| }

  /** The plan of a lock taken now. */
  function PlanNow(s: Sys): Plan
  {
    Plan(BatchNow(s), Sort(Keys(Blockers(s))), AskedIds(s), NoStraggler(s), {}, false)
  }

  lemma LooksAndLocks(s: Sys)
    requires s.locker.CheckReady? && Fits(s) && !s.ledger.book.locked
    ensures var plan, s' := PlanNow(s), LockLook(s);
            && L.Enabled(s.ledger, L.Lock) && s'.ledger == L.Next(s.ledger, L.Lock) && s'.strays == s.strays
            && s'.locker == Requesting(plan, StartTasks(plan.order, Chosen(plan.order, plan.batch)))
  {
    hide CalcBatch, Sort, Chosen, AskedIds, NoStraggler;
  }

  /** What a lock has when it begins to request. */
  ghost predicate Begins(s: Sys, s': Sys)
  {
    && L.Enabled(s.ledger, L.Lock) && s'.ledger == L.Next(s.ledger, L.Lock) && s'.strays == s.strays
    && s'.locker.Requesting? && AskedUpTo(s', 0)
    && s'.locker.plan == PlanNow(s) && s'.locker.plan.batch <= |s'.locker.tasks|
  }

  lemma TakeLock(s: Sys) returns (s': Sys)
    requires Sound(s) && s.locker.Idle? && Fits(s)
    ensures SmoothRun(s, [LockCalled, LockLooks], s') && Sound(s') && Begins(s, s')
  {
    var s1 := Next(s, LockCalled);
    SmoothStep(s, LockCalled);
    StepSound(s, LockCalled);
    SameAsked(s, s1);
    hide AskedIds, NoStraggler, SmoothRun, L.Next, AskedUpTo, Sort, CalcBatch;
    s' := LookTakes(s1);
    SmoothJoin(s, [LockCalled], s1, [LockLooks], s');
    assert [LockCalled] + [LockLooks] == [LockCalled, LockLooks];
    hide Sound;
  }

  lemma LookTakes(s: Sys) returns (s': Sys)
    requires Sound(s) && s.locker.CheckReady? && Fits(s)
    ensures SmoothRun(s, [LockLooks], s') && Sound(s') && Begins(s, s')
  {
    assert !s.ledger.book.locked by { assert LockerOk(s); }
    assert Next(s, LockLooks) == LockLook(s);
    assert L.Balanced(s.ledger);
    hide Sound, SmoothRun, Sort, CalcBatch, Chosen, AskedIds, NoStraggler, LockLook, Next, L.Next, L.Balanced;
    OrderSize(s);
    ChosenCoversBatch(Sort(Keys(Blockers(s))), BatchNow(s));
    LooksAndLocks(s);
    StepSound(s, LockLooks);
    SmoothStep(s, LockLooks);
    s' := Next(s, LockLooks);
  }

  lemma OrderSize(s: Sys)
    requires L.Balanced(s.ledger)
    ensures |Sort(Keys(Blockers(s)))| == |Blockers(s)|
  {
    OrderFacts(s);
  }

  lemma SameAsked(s: Sys, s': Sys)
    requires s'.ledger == s.ledger && s'.cells == s.cells && s'.strays == s.strays
    ensures AskedIds(s') == AskedIds(s) && NoStraggler(s') == NoStraggler(s)
  {
  }

  lemma RequestsEnd(s: Sys) returns (s': Sys)
    requires Sound(s) && s.locker.Requesting? && AskedUpTo(s, |s.locker.tasks|)
    ensures SmoothRun(s, [TasksDone], s') && OnlyLocker(s, s') && Sound(s')
    ensures s'.locker == Settling(s.locker.plan.(acked := AskedIds(s)), 0, false)
    ensures forall j :: 0 <= j < |s.locker.tasks| ==> CellAt(s', j).block
  {
    SmoothStep(s, TasksDone);
    StepSound(s, TasksDone);
    s' := Next(s, TasksDone);
    hide Sound, AskedIds;
    forall j | 0 <= j < |s.locker.tasks| ensures CellAt(s', j).block {
      assert Blocked(Cell(s, s.locker.plan.order[j].id));
    }
  }

  /** From every idle manager with blockers enough, with stragglers or without, and whoever is asked
      already, some run takes the lock and returns with exactly the first batch of the order blocked,
      without a step of anyone but the locker, its request tasks and the workers. */
  lemma LockRound(s: Sys) returns (es: seq<Event>, s': Sys)
    requires Sound(s) && s.locker.Idle? && Fits(s)
    ensures SmoothRun(s, es, s') && Sound(s') && s'.locker.Held?
    ensures s'.ledger == L.Next(s.ledger, L.Lock) && s'.strays == s.strays
    ensures s'.locker.plan == PlanNow(s).(acked := s'.locker.plan.acked)
    ensures HoldsTheBatch(s')
  {
    var s1 := TakeLock(s);
    var m := |s1.locker.tasks|;
    hide Sound, SmoothRun, L.Next, PlanNow;
    var e2, s2 := AskAll(s1, 0);
    var s3 := RequestsEnd(s2);
    var e4, s4 := SettleAndHold(s3, m);
    hide AskedUpTo, HoldsTheBatch, OnlyLocker;
    SmoothJoin(s, [LockCalled, LockLooks], s1, e2, s2);
    SmoothJoin(s, [LockCalled, LockLooks] + e2, s2, [TasksDone], s3);
    SmoothJoin(s, [LockCalled, LockLooks] + e2 + [TasksDone], s3, e4, s4);
    es, s' := [LockCalled, LockLooks] + e2 + [TasksDone] + e4, s4;
  }

  /** The batch is everyone. */
  predicate Tight(s: Sys) { BatchNow(s) == |Blockers(s)| }

  /** When the batch is everyone, such a run blocks everyone. */
  lemma LockEveryone(s: Sys) returns (es: seq<Event>, s': Sys)
    requires Sound(s) && s.locker.Idle? && Tight(s)
    ensures SmoothRun(s, es, s') && Sound(s') && s'.locker.Held?
    ensures s'.ledger == L.Next(s.ledger, L.Lock) && s'.strays == s.strays
    ensures s'.locker.plan.free == NoStraggler(s) && !s'.locker.plan.lapsed
    ensures forall id :: id in Listed(s) ==> Blocked(Cell(s', id))
  {
    assert s.ledger.book.blockers == L.Next(s.ledger, L.Lock).book.blockers by { assert LockerOk(s); }
    es, s' := LockRound(s);
    OrderOk(s');
    var order := s'.locker.plan.order;
    assert |order| == |Blockers(s')| == |Blockers(s)| == s'.locker.plan.batch;
    hide Sound, SmoothRun, DistinctIds, L.Next, NoStraggler, Sort;
    forall id | id in Listed(s) ensures Blocked(Cell(s', id)) {
      assert id in OrderIds(order);
      var k :| k in order && k.id == id;
      var j :| 0 <= j < |order| && order[j] == k;
      assert CellAt(s', j) == Cell(s', id);
    }
  }
}
