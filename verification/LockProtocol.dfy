/** The whole locking protocol as a transition system: one locker, the request tasks it spawns, any
    number of workers, joining and leaving blockers, timeouts and cancellations. Every step is one
    critical section, one wakeup or one timeout. */
module LockProtocol {
  import B = Blocker
  import opened BlockerManager
  import L = BlockerLedger

  // ---- Request tasks -----------------------------------------------------------------------------

  datatype TaskPc = Unstarted | Checking | Sleeping | TimedOut | Finished

  /** A spawned request: ask to block, sync until the timeout, take the request back if it came. */
  datatype Task = Task(id: nat, pc: TaskPc)

  datatype TaskMove = Begin | Check | Wake | TimeOut(lost: bool) | GiveUp

  predicate CanMove(pc: TaskPc, c: B.Blocker, m: TaskMove)
  {
    match m
    case Begin => pc.Unstarted?
    case Check => pc.Checking?
    case Wake => pc.Sleeping? && c.answered
    case TimeOut(lost) => pc.Sleeping? && (lost ==> c.answered)
    case GiveUp => pc.TimedOut?
  }

  function Moved(pc: TaskPc, c: B.Blocker, m: TaskMove): (TaskPc, B.Blocker)
  {
    match m
    case Begin => (Checking, B.RequestBlock(c).0)
    case Check => (if B.Synced(c) then Finished else Sleeping, c)
    case Wake => (Checking, c.(answered := false))
    case TimeOut(lost) => (TimedOut, c.(answered := c.answered && !lost))
    case GiveUp => (Finished, B.RequestUnblock(c).0)
  }

  datatype WorkerMove = Enter | Look | Rouse | Leave(lost: bool)

  predicate WorkerCan(pc: B.Pc, c: B.Blocker, m: WorkerMove)
  {
    match m
    case Enter => pc.Away?
    case Look => pc.Looking?
    case Rouse => pc.Asleep? && c.requested
    case Leave(lost) => pc.Asleep? && (lost ==> c.requested)
  }

  function WorkerMoved(pc: B.Pc, c: B.Blocker, m: WorkerMove): (B.Pc, B.Blocker)
  {
    match m
    case Enter => (B.Looking, c)
    case Look => var (c', done) := B.Look(c); (if done then B.Away else B.Asleep, c')
    case Rouse => (B.Looking, c.(requested := false))
    case Leave(lost) => (B.Away, c.(requested := c.requested && !lost))
  }

  // ---- The system --------------------------------------------------------------------------------

  /** What one lock works on: the batch and the list sorted for it. The rest is history: who was
      asked already when the lock began, whether no straggler was left then, who was asked when the
      request tasks had ended, and whether some request was taken back. */
  datatype Plan =
    Plan(batch: nat, order: seq<Key>, leftover: set<nat>, free: bool, acked: set<nat>, lapsed: bool)

  /** Where the locker is. */
  datatype Locker =
    | Idle
    | CheckReady
    | AwaitReady
    | Requesting(plan: Plan, tasks: seq<Task>)
    | Settling(plan: Plan, k: nat, asleep: bool)
    | Releasing(plan: Plan, k: nat, n: nat)
    | Resettling(plan: Plan, k: nat, asleep: bool)
    | Held(plan: Plan)

  predicate InLock(l: Locker) { !(l.Idle? || l.CheckReady? || l.AwaitReady?) }

  predicate Syncing(l: Locker) { l.Settling? || l.Resettling? }

  /** `strays` are the request tasks of cancelled locks. */
  datatype Sys = Sys(
    ledger: L.Ledger, cells: map<nat, B.Blocker>, workers: map<nat, B.Pc>, locker: Locker, strays: seq<Task>)

  function Cell(s: Sys, id: nat): B.Blocker { if id in s.cells then s.cells[id] else B.NEW_BLOCKER }

  function Worker(s: Sys, id: nat): B.Pc { if id in s.workers then s.workers[id] else B.Away }

  function Blockers(s: Sys): seq<Info> { s.ledger.book.blockers }

  function Listed(s: Sys): set<nat> { L.IdsOf(Blockers(s)) }

  function Asked(s: Sys): seq<bool>
  {
    seq(|Blockers(s)|, i requires 0 <= i < |Blockers(s)| => Cell(s, Blockers(s)[i].key.id).block)
  }

  function NewSys(c: Configure): Sys { Sys(L.NewLedger(c), map[], map[], Idle, []) }

  datatype Event =
    | Member(e: L.Event)                    // add_blocker, its wakeups, and remove_blocker
    | WorkerMoves(id: nat, move: WorkerMove)
    | LockCalled
    | LockLooks
    | LockWakes
    | LockGivesUp(lost: bool)
    | TaskMoves(j: nat, step: TaskMove)
    | TasksDone
    | TasksCancelled
    | StrayMoves(i: nat, step: TaskMove)
    | SyncLooks
    | SyncWakes
    | SyncCancelled(lost: bool)
    | SyncDone
    | ReleaseNext
    | ReleaseDone
    | UnlockCalled

  /** The blocker whose turn it is in one of the locker's loops. */
  predicate AtTurn(l: Locker) { (Syncing(l) || l.Releasing?) && l.k < |l.plan.order| }

  function TurnId(l: Locker): nat
    requires AtTurn(l)
  {
    l.plan.order[l.k].id
  }

  predicate Enabled(s: Sys, e: Event)
  {
    match e
    case Member(m) => !m.Lock? && !m.UnlockAll? && L.Enabled(s.ledger, m)
    case WorkerMoves(id, m) => WorkerCan(Worker(s, id), Cell(s, id), m) && (m.Enter? ==> id in Listed(s))
    case LockCalled => s.locker.Idle?
    case LockLooks => s.locker.CheckReady?
    case LockWakes => s.locker.AwaitReady? && s.ledger.book.ready
    case LockGivesUp(lost) => s.locker.AwaitReady? && (lost ==> s.ledger.book.ready)
    case TaskMoves(j, m) =>
      s.locker.Requesting? && j < |s.locker.tasks| &&
      CanMove(s.locker.tasks[j].pc, Cell(s, s.locker.tasks[j].id), m)
    case TasksDone => s.locker.Requesting? && forall j :: 0 <= j < |s.locker.tasks| ==> s.locker.tasks[j].pc.Finished?
    case TasksCancelled => s.locker.Requesting?
    case StrayMoves(i, m) => i < |s.strays| && CanMove(s.strays[i].pc, Cell(s, s.strays[i].id), m)
    case SyncLooks => Syncing(s.locker) && AtTurn(s.locker) && !s.locker.asleep
    case SyncWakes => Syncing(s.locker) && AtTurn(s.locker) && s.locker.asleep && Cell(s, TurnId(s.locker)).answered
    case SyncCancelled(lost) =>
      Syncing(s.locker) && AtTurn(s.locker) && s.locker.asleep && (lost ==> Cell(s, TurnId(s.locker)).answered)
    case SyncDone => Syncing(s.locker) && s.locker.k == |s.locker.plan.order|
    case ReleaseNext => s.locker.Releasing? && AtTurn(s.locker)
    case ReleaseDone => s.locker.Releasing? && s.locker.k == |s.locker.plan.order|
    case UnlockCalled => s.locker.Held?
  }

  function WithCell(s: Sys, id: nat, c: B.Blocker): Sys { s.(cells := s.cells[id := c]) }

  function WithReady(s: Sys, ready: bool): Sys { s.(ledger := s.ledger.(book := s.ledger.book.(ready := ready))) }

  /** Everyone is asked to go on, epochs go up, and the queue is admitted. */
  function Unlocked(s: Sys): Sys
  {
    var queued := L.RequestIdsOf(s.ledger.book.requests);
    if !s.ledger.book.locked then s.(locker := Idle)
    else s.(ledger := L.Next(s.ledger, L.UnlockAll(Asked(s))),
            cells := map id | id in s.cells.Keys + queued ::
                       if id in queued then B.NEW_BLOCKER
                       else if id in Listed(s) then B.RequestUnblock(s.cells[id]).0 else s.cells[id],
            locker := Idle)
  }

  function AskedIds(s: Sys): set<nat> { set id | id in Listed(s) && Cell(s, id).block }

  /** No request task of a cancelled lock is still going for a listed blocker. */
  predicate NoStraggler(s: Sys)
  {
    forall i :: 0 <= i < |s.strays| && !s.strays[i].pc.Finished? ==> s.strays[i].id !in Listed(s)
  }

  function StartTasks(order: seq<Key>, m: nat): seq<Task>
    requires m <= |order|
  {
    seq(m, j requires 0 <= j < m => Task(order[j].id, Unstarted))
  }

  function LockLook(s: Sys): Sys
  {
    var size := |Blockers(s)|;
    var batch := CalcBatch(s.ledger.book.conf, size);
    if batch > size then s.(locker := AwaitReady)
    else if s.ledger.book.locked then s.(locker := Idle)
    else
      var order := Sort(Keys(Blockers(s)));
      s.(ledger := L.Next(s.ledger, L.Lock),
         locker := Requesting(Plan(batch, order, AskedIds(s), NoStraggler(s), {}, false),
                              StartTasks(order, Chosen(order, batch))))
  }

  function SyncTurn(l: Locker, k: nat, asleep: bool): Locker
    requires Syncing(l)
  {
    if l.Settling? then Settling(l.plan, k, asleep) else Resettling(l.plan, k, asleep)
  }

  /** The answer the locker waits for may be taken from its channel. */
  function WithAnswer(s: Sys, taken: bool): Sys
    requires AtTurn(s.locker)
  {
    var id := TurnId(s.locker);
    WithCell(s, id, Cell(s, id).(answered := Cell(s, id).answered && !taken))
  }

  /** One turn of the loop that lets go of those beyond the batch. */
  function ReleaseTurn(s: Sys): Sys
    requires s.locker.Releasing? && AtTurn(s.locker)
  {
    var Releasing(plan, k, n) := s.locker;
    var id := TurnId(s.locker);
    var c := Cell(s, id);
    if !c.blocked then s.(locker := Releasing(plan, k + 1, n))
    else
      var c' := if n + 1 > plan.batch then B.RequestUnblock(c).0 else c;
      WithCell(s, id, c').(locker := Releasing(plan, k + 1, n + 1))
  }

  function Next(s: Sys, e: Event): Sys
    requires Enabled(s, e)
  {
    match e
    case Member(m) =>
      var s' := s.(ledger := L.Next(s.ledger, m));
      if m.Add? && !s.ledger.book.locked then WithCell(s', s.ledger.book.nextId, B.NEW_BLOCKER) else s'
    case WorkerMoves(id, m) =>
      var (pc, c) := WorkerMoved(Worker(s, id), Cell(s, id), m);
      WithCell(s, id, c).(workers := s.workers[id := pc])
    case LockCalled => s.(locker := CheckReady)
    case LockLooks => LockLook(s)
    case LockWakes => WithReady(s, false).(locker := CheckReady)
    case LockGivesUp(lost) => WithReady(s, s.ledger.book.ready && !lost).(locker := Idle)
    case TaskMoves(j, m) =>
      var Requesting(plan, tasks) := s.locker;
      var (pc, c) := Moved(tasks[j].pc, Cell(s, tasks[j].id), m);
      WithCell(s, tasks[j].id, c).(
        locker := Requesting(plan.(lapsed := plan.lapsed || m.GiveUp?), tasks[j := tasks[j].(pc := pc)]))
    case TasksDone => s.(locker := Settling(s.locker.plan.(acked := AskedIds(s)), 0, false))
    case TasksCancelled =>
      Unlocked(s).(strays := s.strays + s.locker.tasks)
    case StrayMoves(i, m) =>
      var t := s.strays[i];
      var (pc, c) := Moved(t.pc, Cell(s, t.id), m);
      WithCell(s, t.id, c).(strays := s.strays[i := t.(pc := pc)])
    case SyncLooks =>
      var synced := B.Synced(Cell(s, TurnId(s.locker)));
      s.(locker := SyncTurn(s.locker, if synced then s.locker.k + 1 else s.locker.k, !synced))
    case SyncWakes => WithAnswer(s, true).(locker := SyncTurn(s.locker, s.locker.k, false))
    case SyncCancelled(lost) => Unlocked(WithAnswer(s, lost))
    case SyncDone => s.(locker := if s.locker.Settling? then Releasing(s.locker.plan, 0, 0) else Held(s.locker.plan))
    case ReleaseNext => ReleaseTurn(s)
    case ReleaseDone => s.(locker := Resettling(s.locker.plan, 0, false))
    case UnlockCalled => Unlocked(s)
  }

  /** Steps that touch neither the book nor anyone's membership. */
  predicate Bookless(e: Event)
  {
    match e
    case WorkerMoves(_, _) => true
    case LockCalled => true
    case TaskMoves(_, _) => true
    case TasksDone => true
    case StrayMoves(_, _) => true
    case SyncLooks => true
    case SyncWakes => true
    case SyncDone => true
    case ReleaseNext => true
    case ReleaseDone => true
    case _ => false
  }

  lemma BooklessKeepsLedger(s: Sys, e: Event)
    requires Enabled(s, e) && Bookless(e)
    ensures Next(s, e).ledger == s.ledger
  {
    hide Moved, WorkerMoved, CanMove, WorkerCan, Cell, AskedIds;
  }

  // ---- Whom the plan keeps -----------------------------------------------------------------------

  /** The keys, in order, whose ids are in the set. */
  function Picked(order: seq<Key>, ids: set<nat>): (r: seq<Key>)
    ensures |r| <= |order|
  {
    if order == [] then []
    else
      var last := order[|order| - 1];
      if last.id in ids then Picked(order[..|order| - 1], ids) + [last] else Picked(order[..|order| - 1], ids)
  }

  /** Whether the j-th keeps being blocked: it acked, and fewer than a batch before it did. */
  predicate Kept(p: Plan, j: nat)
    requires j < |p.order|
  {
    p.order[j].id in p.acked && |Picked(p.order[..j], p.acked)| < p.batch
  }

  /** A set that has the kept ones, and no one else of the order, picks the first of the acked. */
  lemma {:induction false} KeptAreTheFirst(p: Plan, m: nat, ids: set<nat>)
    requires m <= |p.order|
    requires forall j :: 0 <= j < m ==> (p.order[j].id in ids <==> Kept(p, j))
    ensures var acked := Picked(p.order[..m], p.acked);
            Picked(p.order[..m], ids) == if |acked| <= p.batch then acked else acked[..p.batch]
  {
    if m > 0 {
      KeptAreTheFirst(p, m - 1, ids);
      assert p.order[..m][..m - 1] == p.order[..m - 1];
    }
  }

  /** When the first n are all in the set, at least those are picked. */
  lemma {:induction false} PickedAtLeast(order: seq<Key>, j: nat, n: nat, ids: set<nat>)
    requires j <= |order| && n <= |order| && forall i :: 0 <= i < n ==> order[i].id in ids
    ensures |Picked(order[..j], ids)| >= if j <= n then j else n
  {
    if j > 0 {
      PickedAtLeast(order, j - 1, n, ids);
      assert order[..j][..j - 1] == order[..j - 1];
    }
  }
}
