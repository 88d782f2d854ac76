/** One blocker: two flags under a mutex, and a one-slot channel each way. The manager asks through
    `block`, the worker answers through `blocked`. */
module Blocker {

  datatype Blocker = Blocker(block: bool, blocked: bool, requested: bool, answered: bool)

  const NEW_BLOCKER := Blocker(false, false, false, false)

  predicate Synced(b: Blocker) { b.block == b.blocked }

  function RequestBlock(b: Blocker): (Blocker, bool)
  {
    if b.block then (b, false) else (b.(block := true, requested := true), true)
  }

  function RequestUnblock(b: Blocker): (Blocker, bool)
  {
    if b.block then (b.(block := false, requested := true), true) else (b, false)
  }

  /** The worker's critical section in `await_unblock`: answer the flag, and say whether the
      worker may go on. */
  function Look(b: Blocker): (Blocker, bool)
  {
    if b.blocked then
      if !b.block then (b.(blocked := false, answered := true), true) else (b, false)
    else
      if b.block then (b.(blocked := true, answered := true), false) else (b, true)
  }

  /** A look answers: the flags then agree, a change is told, the request stands, and the worker may go on
      exactly if nobody wants it blocked. */
  lemma LookMeaning(b: Blocker)
    ensures Look(b).1 <==> !b.block
    ensures Look(b).0 == Blocker(b.block, b.block, b.requested, b.answered || b.blocked != b.block)
  {
  }

  /** A request sets the flag, is told just if that is a change, and leaves the answer alone. */
  lemma RequestMeaning(b: Blocker, block: bool)
    ensures (if block then RequestBlock(b) else RequestUnblock(b)) ==
            (Blocker(block, b.blocked, b.requested || b.block != block, b.answered), b.block != block)
  {
  }

  datatype Pc = Away | Looking | Asleep

  /** A blocker with the one task that syncs on it and its one worker. */
  datatype Pair = Pair(b: Blocker, manager: Pc, worker: Pc)

  datatype Event =
    | Ask(block: bool)               // request_block or request_unblock
    | Sync                           // the manager enters sync
    | SyncLook
    | SyncWake
    | SyncCancel(lost: bool)         // the closer ends the wait; a token may be lost with it
    | Wait                           // the worker enters await_unblock
    | WorkerLook
    | WorkerWake
    | WorkerCancel(lost: bool)

  predicate Enabled(p: Pair, e: Event)
  {
    match e
    case Ask(_) => p.manager.Away?
    case Sync => p.manager.Away?
    case SyncLook => p.manager.Looking?
    case SyncWake => p.manager.Asleep? && p.b.answered
    case SyncCancel(lost) => p.manager.Asleep? && (lost ==> p.b.answered)
    case Wait => p.worker.Away?
    case WorkerLook => p.worker.Looking?
    case WorkerWake => p.worker.Asleep? && p.b.requested
    case WorkerCancel(lost) => p.worker.Asleep? && (lost ==> p.b.requested)
  }

  function Next(p: Pair, e: Event): Pair
  {
    match e
    case Ask(block) => p.(b := if block then RequestBlock(p.b).0 else RequestUnblock(p.b).0)
    case Sync => p.(manager := Looking)
    case SyncLook => p.(manager := if Synced(p.b) then Away else Asleep)
    case SyncWake => p.(b := p.b.(answered := false), manager := Looking)
    case SyncCancel(lost) => p.(b := p.b.(answered := p.b.answered && !lost), manager := Away)
    case Wait => p.(worker := Looking)
    case WorkerLook => var (b, done) := Look(p.b); p.(b := b, worker := if done then Away else Asleep)
    case WorkerWake => p.(b := p.b.(requested := false), worker := Looking)
    case WorkerCancel(lost) => p.(b := p.b.(requested := p.b.requested && !lost), worker := Away)
  }

  /** What holds of a sleeping worker: it has answered "blocked", and a request to go on is
      waiting in its channel. */
  predicate WorkerReachable(b: Blocker, worker: Pc)
  {
    worker.Asleep? ==> b.blocked && (!b.block ==> b.requested)
  }

  predicate SyncReachable(b: Blocker, asleep: bool) { asleep && Synced(b) ==> b.answered }

  ghost predicate Run(p: Pair, es: seq<Event>, p': Pair)
    decreases |es|
  {
    if es == [] then p == p' else Enabled(p, es[0]) && Run(Next(p, es[0]), es[1..], p')
  }

  lemma {:induction false} RunKeepsReachable(p: Pair, es: seq<Event>, p': Pair)
    requires WorkerReachable(p.b, p.worker) && SyncReachable(p.b, p.manager.Asleep?) && Run(p, es, p')
    ensures WorkerReachable(p'.b, p'.worker) && SyncReachable(p'.b, p'.manager.Asleep?)
    decreases |es|
  {
    if es != [] { RunKeepsReachable(Next(p, es[0]), es[1..], p'); }
  }

  /** No lost wakeup, either way: whenever a sleeper's condition holds, its channel has the token
      that wakes it, and its next look then succeeds. */
  lemma HandshakeHasNoLostWakeup(es: seq<Event>, p: Pair)
    requires Run(Pair(NEW_BLOCKER, Away, Away), es, p)
    ensures p.manager.Asleep? && Synced(p.b) ==>
              Enabled(p, SyncWake) && Next(Next(p, SyncWake), SyncLook).manager == Away
    ensures p.worker.Asleep? && !p.b.block ==>
              Enabled(p, WorkerWake) && var q := Next(Next(p, WorkerWake), WorkerLook);
                    q.worker == Away && !q.b.blocked && q.b.answered
  {
    RunKeepsReachable(Pair(NEW_BLOCKER, Away, Away), es, p);
  }

  lemma {:induction false} RunsJoin(a: Pair, es: seq<Event>, b: Pair, fs: seq<Event>, c: Pair)
    requires Run(a, es, b) && Run(b, fs, c)
    ensures Run(a, es + fs, c)
    decreases |es|
  {
    hide Next, Enabled;
    if es == [] {
      assert es + fs == fs;
    } else {
      assert (es + fs)[1..] == es[1..] + fs;
      RunsJoin(Next(a, es[0]), es[1..], b, fs, c);
    }
  }

  lemma TwoSteps(p: Pair, d: Event, e: Event)
    requires Enabled(p, d) && Enabled(Next(p, d), e)
    ensures Run(p, [d, e], Next(Next(p, d), e))
  {
    hide Next, Enabled;
    var q := Next(p, d);
    assert [d, e][1..] == [e] && [d, e][1..][1..] == [];
    assert Run(Next(q, e), [], Next(q, e));
    assert Run(q, [e], Next(q, e));
  }

  /** A worker that has something to answer can come to look, and then answers. */
  lemma WorkerAnswers(p: Pair) returns (es: seq<Event>, p': Pair)
    requires WorkerReachable(p.b, p.worker) && !Synced(p.b)
    ensures Run(p, es, p') && p'.manager == p.manager
    ensures p'.b.block == p'.b.blocked == p.b.block && p'.b.answered
    ensures p'.worker == if p.b.block then Asleep else Away
  {
    if p.worker.Looking? {
      es, p' := [WorkerLook], Next(p, WorkerLook);
      assert Run(p', [], p') && es[1..] == [];
    } else {
      var e := if p.worker.Away? then Wait else WorkerWake;
      es, p' := [e, WorkerLook], Next(Next(p, e), WorkerLook);
      TwoSteps(p, e, WorkerLook);
    }
  }

  /** A request that is not met yet goes all the way: the manager asks, finds the flags differ and sleeps;
      the worker answers, waiting if it is to be blocked and going on if not; and the manager wakes, finds
      them agree and returns. */
  lemma RequestGoesThrough(before: seq<Event>, p: Pair, block: bool) returns (es: seq<Event>, p': Pair)
    requires Run(Pair(NEW_BLOCKER, Away, Away), before, p) && p.manager.Away? && p.b.blocked != block
    ensures Run(p, [Ask(block), Sync, SyncLook] + es + [SyncWake, SyncLook], p')
    ensures p'.manager.Away? && p'.b.block == p'.b.blocked == block && !p'.b.answered
    ensures p'.worker == if block then Asleep else Away
  {
    RunKeepsReachable(Pair(NEW_BLOCKER, Away, Away), before, p);
    var p1 := Next(p, Ask(block));
    var p3 := Next(Next(p1, Sync), SyncLook);
    assert Run(p1, [], p1) && [Ask(block)][1..] == [] && Run(p, [Ask(block)], p1);
    TwoSteps(p1, Sync, SyncLook);
    RunsJoin(p, [Ask(block)], p1, [Sync, SyncLook], p3);
    assert [Ask(block)] + [Sync, SyncLook] == [Ask(block), Sync, SyncLook];
    var p4: Pair;
    es, p4 := WorkerAnswers(p3);
    TwoSteps(p4, SyncWake, SyncLook);
    p' := Next(Next(p4, SyncWake), SyncLook);
    RunsJoin(p, [Ask(block), Sync, SyncLook], p3, es, p4);
    RunsJoin(p, [Ask(block), Sync, SyncLook] + es, p4, [SyncWake, SyncLook], p');
  }

  /** A cancelled wait changes no flag; its token may be lost with it. */
  lemma CancelKeepsFlags(p: Pair, e: Event)
    requires Enabled(p, e) && (e.SyncCancel? || e.WorkerCancel?)
    ensures var n := Next(p, e);
            && n.b.block == p.b.block && n.b.blocked == p.b.blocked
            && (e.SyncCancel? ==>
                  n == Pair(p.b.(answered := n.b.answered), Away, p.worker) &&
                  n.b.answered == (p.b.answered && !e.lost))
            && (e.WorkerCancel? ==>
                  n == Pair(p.b.(requested := n.b.requested), p.manager, Away) &&
                  n.b.requested == (p.b.requested && !e.lost))
  {
  }

  predicate WorkerEvent(e: Event) { e.Wait? || e.WorkerLook? || e.WorkerWake? || e.WorkerCancel? }

  /** Agreement is stable under the worker's steps, and one look of the worker brings it about. */
  lemma {:induction false} AgreementIsStable(p: Pair, es: seq<Event>, p': Pair)
    requires Run(p, es, p') && forall i :: 0 <= i < |es| ==> WorkerEvent(es[i])
    ensures p'.b.block == p.b.block
    ensures Synced(p.b) ==> p'.b.blocked == p.b.blocked
    ensures WorkerLook in es ==> Synced(p'.b)
    decreases |es|
  {
    if es != [] {
      assert WorkerEvent(es[0]);
      var q := Next(p, es[0]);
      AgreementIsStable(q, es[1..], p');
      if WorkerLook in es && es[0] != WorkerLook {
        assert WorkerLook in es[1..];
      }
    }
  }

  // ---- Several workers of one blocker ------------------------------------------------------------

  /** A blocker that any number of workers wait on. `takers` is history: who has taken a request token
      since the flag last went off. */
  datatype Crowd = Crowd(b: Blocker, workers: seq<Pc>, takers: set<nat>)

  datatype CrowdEvent =
    | AskCrowd(block: bool)
    | Arrive                           // one more call of await_unblock
    | LookOf(i: nat)
    | WakeOf(i: nat)
    | CancelOf(i: nat, lost: bool)

  predicate CanHappen(c: Crowd, e: CrowdEvent)
  {
    match e
    case AskCrowd(_) => true
    case Arrive => true
    case LookOf(i) => i < |c.workers| && c.workers[i].Looking?
    case WakeOf(i) => Sleeps(c, i) && c.b.requested
    case CancelOf(i, lost) => Sleeps(c, i) && (lost ==> c.b.requested)
  }

  predicate Sleeps(c: Crowd, i: nat) { i < |c.workers| && c.workers[i].Asleep? }

  function Happens(c: Crowd, e: CrowdEvent): Crowd
    requires CanHappen(c, e)
  {
    match e
    case AskCrowd(block) =>
      if block then c.(b := RequestBlock(c.b).0)
      else c.(b := RequestUnblock(c.b).0, takers := if c.b.block then {} else c.takers)
    case Arrive => c.(workers := c.workers + [Looking])
    case LookOf(i) =>
      var (b, done) := Look(c.b);
      c.(b := b, workers := c.workers[i := if done then Away else Asleep])
    case WakeOf(i) => Crowd(c.b.(requested := false), c.workers[i := Looking], c.takers + {i})
    case CancelOf(i, lost) =>
      Crowd(c.b.(requested := c.b.requested && !lost), c.workers[i := Away], if lost then c.takers + {i} else c.takers)
  }

  ghost predicate CrowdRun(c: Crowd, es: seq<CrowdEvent>, c': Crowd)
    decreases |es|
  {
    if es == [] then c == c' else CanHappen(c, es[0]) && CrowdRun(Happens(c, es[0]), es[1..], c')
  }

  /** Whoever sleeps though the flag is off has a token, unless somebody else took it. */
  ghost predicate TokenOrTaken(c: Crowd)
  {
    forall i :: Sleeps(c, i) && !c.b.block ==> i !in c.takers && (c.b.requested <==> c.takers == {})
  }

  lemma {:induction false} CrowdKeepsToken(c: Crowd, es: seq<CrowdEvent>, c': Crowd)
    requires TokenOrTaken(c) && CrowdRun(c, es, c')
    ensures TokenOrTaken(c')
    decreases |es|
  {
    if es != [] {
      var d := Happens(c, es[0]);
      forall i | Sleeps(d, i) && !d.b.block ensures i !in d.takers && (d.b.requested <==> d.takers == {}) {
        if es[0].AskCrowd? || es[0].Arrive? || es[0].i != i { assert Sleeps(c, i); }
      }
      CrowdKeepsToken(d, es[1..], c');
    }
  }

  const LONELY := Crowd(NEW_BLOCKER, [], {})

  /** Several workers of one blocker share one token. Over every run, a worker that sleeps though the
      flag is off cannot wake exactly if another one has taken a token since the flag went off. */
  lemma WorkersShareOneToken(es: seq<CrowdEvent>, c: Crowd, i: nat)
    requires CrowdRun(LONELY, es, c) && Sleeps(c, i) && !c.b.block
    ensures !CanHappen(c, WakeOf(i)) <==> exists j :: j in c.takers && j != i
  {
    CrowdKeepsToken(LONELY, es, c);
    if c.takers != {} {
      var j :| j in c.takers;
      assert j != i;
    }
  }

  const TWO_WAIT: seq<CrowdEvent> :=
    [AskCrowd(true), Arrive, Arrive, LookOf(0), LookOf(1), AskCrowd(false), WakeOf(0), LookOf(0)]

  /** So of two that wait, one may sleep on. */
  lemma OneOfTwoSleepsOn() returns (c: Crowd)
    ensures CrowdRun(LONELY, TWO_WAIT, c) && Sleeps(c, 1) && !c.b.block && !CanHappen(c, WakeOf(1))
  {
    var c1 := Happens(LONELY, AskCrowd(true));
    var c2 := Happens(c1, Arrive);
    var c3 := Happens(c2, Arrive);
    var c4 := Happens(c3, LookOf(0));
    var c5 := Happens(c4, LookOf(1));
    var c6 := Happens(c5, AskCrowd(false));
    var c7 := Happens(c6, WakeOf(0));
    c := Happens(c7, LookOf(0));
    hide Happens, CanHappen;
    var es := TWO_WAIT;
    assert es[1..][1..][1..][1..][1..][1..][1..][1..] == [];
    assert CrowdRun(c7, es[1..][1..][1..][1..][1..][1..][1..], c);
    assert CrowdRun(c6, es[1..][1..][1..][1..][1..][1..], c);
    assert CrowdRun(c5, es[1..][1..][1..][1..][1..], c);
    assert CrowdRun(c4, es[1..][1..][1..][1..], c);
    assert CrowdRun(c3, es[1..][1..][1..], c);
    assert CrowdRun(c2, es[1..][1..], c);
    assert CrowdRun(c1, es[1..], c);
  }

  class AsyncBlocker {
    const id: nat
    var block: bool
    var blocked: bool
    var requested: bool
    var answered: bool

    ghost function View(): Blocker
      reads this
    {
      Blocker(block, blocked, requested, answered)
    }

    constructor (id: nat)
      ensures this.id == id && View() == NEW_BLOCKER
    {
      this.id := id;
      block, blocked, requested, answered := false, false, false, false;
    }

    method AskBlock() returns (asked: bool)
      modifies this`block, this`requested
      ensures (View(), asked) == RequestBlock(old(View()))
      ensures block && (asked <==> !old(block)) && (requested <==> old(requested) || asked)
    {
      if block { return false; }
      block, requested := true, true;
      return true;
    }

    method AskUnblock() returns (asked: bool)
      modifies this`block, this`requested
      ensures (View(), asked) == RequestUnblock(old(View()))
      ensures !block && (asked <==> old(block)) && (requested <==> old(requested) || asked)
    {
      if !block { return false; }
      block, requested := false, true;
      return true;
    }

    /** One turn of the loop in `sync`. */
    method InSync() returns (synced: bool)
      ensures synced == Synced(View())
      ensures synced <==> block == blocked
    {
      if block {
        if blocked { return true; }
      } else {
        if !blocked { return true; }
      }
      return false;
    }

    /** One turn of the loop in `await_unblock`. */
    method Answer() returns (done: bool)
      modifies this`blocked, this`answered
      ensures (View(), done) == Look(old(View())) && Synced(View())
      ensures (done <==> !block) && (done <==> !blocked) && (answered <==> old(answered) || old(blocked) != blocked)
    {
      done := false;
      if blocked {
        if !block {
          blocked, answered := false, true;
          return true;
        }
      } else {
        if block {
          blocked, answered := true, true;
        } else {
          return true;
        }
      }
    }
  }
}
