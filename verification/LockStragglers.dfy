/** A request task that outlives its cancelled lock can undo a later one. From which states that can
    happen, exactly. */
module LockStragglers {
  import B = Blocker
  import opened BlockerManager
  import L = BlockerLedger
  import opened LockProtocol
  import opened LockSafety
  import opened LockPlan
  import opened LockRuns
  import opened LockRounds
  import opened LockFairness

  // ---- Without stragglers every patient lock is right ------------------------------------------------

  lemma {:induction false} PatientRunKeeps(s: Sys, es: seq<Event>, s': Sys)
    requires Sound(s) && Exact(s) && Unhaunted(s) && PatientRun(s, es, s')
    ensures Sound(s') && Exact(s') && Unhaunted(s')
    decreases |es|
  {
    hide Sound, Exact, Unhaunted, Next, Enabled, Patient;
    if es != [] {
      StepSound(s, es[0]);
      StepExact(s, es[0]);
      StepUnhaunted(s, es[0]);
      PatientRunKeeps(Next(s, es[0]), es[1..], s');
    }
  }

  lemma PatientLocksAreRight(c: Configure, before: seq<Event>, s: Sys, es: seq<Event>, s': Sys)
    requires Run(NewSys(c), before, s) && s.locker.Idle? && NoStraggler(s)
    requires PatientRun(s, es, s') && s'.locker.Held?
    ensures s'.locker.plan.free && BlocksTheFirst(s')
  {
    Reachable(c, before, s);
    PatientRunKeeps(s, es, s');
    HeldPicks(s');
    HeldFlags(s');
  }

  // ---- With a straggler some patient lock is wrong ---------------------------------------------------

  /** No lock is cancelled while it requests. */
  ghost predicate PatientSteps(es: seq<Event>) { TasksCancelled !in es }

  lemma {:induction false} RunIsPatient(s: Sys, es: seq<Event>, s': Sys)
    requires Run(s, es, s') && PatientSteps(es)
    ensures PatientRun(s, es, s')
    decreases |es|
  {
    hide Next, Enabled;
    if es != [] {
      assert es[0] in es;
      RunIsPatient(Next(s, es[0]), es[1..], s');
    }
  }

  lemma {:induction false} WithoutListedShrinks(bs: seq<Info>, id: nat)
    requires id in L.IdsOf(bs)
    ensures |WithoutBlocker(bs, id)| < |bs|
  {
    var x :| x in bs && x.key.id == id;
    if bs[0].key.id == id {
      WithoutBlockerShrinks(bs[1..], id);
    } else {
      assert x in bs[1..];
      WithoutListedShrinks(bs[1..], id);
    }
  }

  /** An idle manager that lists `id`, with the strays of another state. */
  ghost predicate IdleWith(s: Sys, id: nat, strays: seq<Task>, c: Configure)
  {
    && Sound(s) && s.locker.Idle? && id in Listed(s) && s.strays == strays
    && s.ledger.book.conf == c && L.Settled(s.ledger.book)
  }

  lemma MemberStep(s: Sys, m: L.Event, id: nat)
    requires IdleWith(s, id, s.strays, s.ledger.book.conf) && (m.Add? || m.Remove?) && m != L.Remove(id)
    ensures Enabled(s, Member(m)) && IdleWith(Next(s, Member(m)), id, s.strays, s.ledger.book.conf)
    ensures Blockers(Next(s, Member(m))) == L.Next(s.ledger, m).book.blockers
    ensures Next(s, Member(m)).ledger.book.conf == s.ledger.book.conf && Next(s, Member(m)).strays == s.strays
  {
    var s' := Next(s, Member(m));
    StepSound(s, Member(m));
    L.StepKeepsTidy(s.ledger, m);
    assert LockerOk(s);
    if m.Remove? {
      L.WithoutBlockerMeaning(Blockers(s), m.id);
    } else {
      var x :| x in Blockers(s) && x.key.id == id;
      assert x in Blockers(s');
    }
  }

  /** A list of this length is a batch. */
  function Goal(c: Configure): nat
  {
    if 1 <= FirstFit(c) then FirstFit(c) else if 1 <= c.targetBatch then c.targetBatch else 0
  }

  lemma GoalIsTight(c: Configure)
    ensures 1 <= c.minBatch || 1 <= c.targetBatch ==> 1 <= Goal(c) == CalcBatch(c, Goal(c))
  {
  }

  /** A blocker joins, or one that is not `id` leaves, to come nearer to the goal. */
  lemma ComeNearer(s: Sys, id: nat) returns (m: L.Event)
    requires IdleWith(s, id, s.strays, s.ledger.book.conf) && 1 <= Goal(s.ledger.book.conf) != |Blockers(s)|
    ensures (m.Add? || m.Remove?) && m != L.Remove(id)
    ensures var fit, was, now := Goal(s.ledger.book.conf), |Blockers(s)|, |L.Next(s.ledger, m).book.blockers|;
            if was < fit then now == was + 1 else now < was
  {
    var bs := Blockers(s);
    assert LockerOk(s);
    if |bs| < Goal(s.ledger.book.conf) {
      m := L.Add(0);
    } else {
      assert bs[0].key.id != bs[1].key.id;
      var x := if bs[0].key.id == id then bs[1] else bs[0];
      assert x in bs && x.key.id in L.IdsOf(bs);
      WithoutListedShrinks(bs, x.key.id);
      m := L.Remove(x.key.id);
    }
  }

  function Distance(s: Sys): nat
  {
    var fit, size := Goal(s.ledger.book.conf), |Blockers(s)|;
    if size <= fit then fit - size else fit + size
  }

  /** Members come and go until the batch is everyone. */
  lemma {:induction false} MakeTight(s: Sys, id: nat) returns (es: seq<Event>, s': Sys)
    requires IdleWith(s, id, s.strays, s.ledger.book.conf)
    requires 1 <= s.ledger.book.conf.minBatch || 1 <= s.ledger.book.conf.targetBatch
    ensures Run(s, es, s') && PatientSteps(es)
    ensures IdleWith(s', id, s.strays, s.ledger.book.conf) && Tight(s')
    decreases if |Blockers(s)| <= Goal(s.ledger.book.conf) then 0 else 1, Distance(s)
  {
    var conf := s.ledger.book.conf;
    GoalIsTight(conf);
    hide IdleWith, L.Next, CalcBatch, Goal;
    if |Blockers(s)| == Goal(conf) {
      es, s' := [], s;
    } else {
      var m := ComeNearer(s, id);
      MemberStep(s, m, id);
      var s1 := Next(s, Member(m));
      OneStep(s, Member(m));
      var fs: seq<Event>;
      fs, s' := MakeTight(s1, id);
      RunsJoin(s, [Member(m)], s1, fs, s');
      es := [Member(m)] + fs;
    }
  }

  /** A state in which a lock that blocks everyone has returned, and the x-th stray is for `id`. */
  ghost predicate HeldWith(s: Sys, id: nat, x: nat)
  {
    && Sound(s) && s.locker.Held? && id in Listed(s) && Blocked(Cell(s, id)) && Tight(s) && L.Settled(s.ledger.book)
    && x < |s.strays| && s.strays[x].id == id && !s.strays[x].pc.Finished?
  }

  /** A tight idle manager can come to hold a lock that blocks `id`; the stray has not moved. */
  lemma HoldOnce(s: Sys, id: nat, x: nat) returns (es: seq<Event>, s': Sys)
    requires IdleWith(s, id, s.strays, s.ledger.book.conf) && Tight(s)
    requires x < |s.strays| && s.strays[x].id == id && !s.strays[x].pc.Finished?
    ensures Run(s, es, s') && PatientSteps(es) && HeldWith(s', id, x) && s'.strays == s.strays
  {
    es, s' := LockEveryone(s);
    assert TasksCancelled in es ==> Smooth(TasksCancelled);
    hide Sound, SmoothRun, CalcBatch;
    assert Blocked(Cell(s', id));
  }

  /** Nobody has queued or been marked, so unlocking keeps the list, and leaves the workers to answer. */
  lemma LetGo(s: Sys, id: nat, x: nat) returns (s': Sys)
    requires HeldWith(s, id, x)
    ensures Run(s, [UnlockCalled], s') && s'.strays == s.strays
    ensures IdleWith(s', id, s.strays, s.ledger.book.conf) && Tight(s')
    ensures !Cell(s', id).block && Cell(s', id).blocked
  {
    OneStep(s, UnlockCalled);
    s' := Next(s, UnlockCalled);
    StepSound(s, UnlockCalled);
    UnlockTidiesUp(s);
    UnlockedCell(s, id);
    assert LockerOk(s);
  }

  lemma UnlockTidiesUp(s: Sys)
    requires s.ledger.book.locked && L.Settled(s.ledger.book)
    ensures |Blockers(Unlocked(s))| == |Blockers(s)| && Listed(Unlocked(s)) == Listed(s)
    ensures L.Settled(Unlocked(s).ledger.book)
  {
    var bumped := Bump(Blockers(s), Asked(s));
    assert forall b :: b in bumped ==> b.valid;
    AllValid(bumped);
    assert Admit([], s.ledger.book.nextEpoch) == [];
    L.BumpMeaning(Blockers(s), Asked(s));
    hide ValidOnes, Admit;
    assert Blockers(Unlocked(s)) == bumped;
  }

  /** The straggler's next step, while its blocker's flags are as given. */
  lemma StrayStep(s: Sys, x: nat, m: TaskMove)
    requires x < |s.strays| && CanMove(s.strays[x].pc, Cell(s, s.strays[x].id), m)
    ensures Enabled(s, StrayMoves(x, m)) && Run(s, [StrayMoves(x, m)], Next(s, StrayMoves(x, m)))
    ensures var t := s.strays[x]; var s', (pc, c) := Next(s, StrayMoves(x, m)), Moved(t.pc, Cell(s, t.id), m);
            && s'.ledger == s.ledger && s'.locker == s.locker && s'.strays == s.strays[x := t.(pc := pc)]
            && Cell(s', t.id) == c && forall k :: k != t.id ==> Cell(s', k) == Cell(s, k)
  {
    OneStep(s, StrayMoves(x, m));
    hide Moved, Run;
  }

  /** While its blocker is blocked, a straggler that has not begun begins, and changes nothing. */
  lemma Begun(s: Sys, id: nat, x: nat) returns (es: seq<Event>, s': Sys)
    requires HeldWith(s, id, x)
    ensures Run(s, es, s') && PatientSteps(es) && HeldWith(s', id, x) && !s'.strays[x].pc.Unstarted?
  {
    if s.strays[x].pc.Unstarted? {
      var e := StrayMoves(x, Begin);
      StrayStep(s, x, Begin);
      es, s' := [e], Next(s, e);
      StepSound(s, e);
      hide Sound, Run, CalcBatch;
    } else {
      es, s' := [], s;
    }
  }

  /** Before the worker has answered an unlock, a straggler that checks falls asleep. */
  lemma Asleep(s: Sys, id: nat, x: nat) returns (es: seq<Event>, s': Sys)
    requires IdleWith(s, id, s.strays, s.ledger.book.conf) && Tight(s) && !B.Synced(Cell(s, id))
    requires x < |s.strays| && s.strays[x].id == id && !s.strays[x].pc.Finished? && !s.strays[x].pc.Unstarted?
    ensures Run(s, es, s') && PatientSteps(es)
    ensures IdleWith(s', id, s'.strays, s'.ledger.book.conf) && Tight(s')
    ensures x < |s'.strays| && s'.strays[x].id == id && (s'.strays[x].pc.Sleeping? || s'.strays[x].pc.TimedOut?)
  {
    if s.strays[x].pc.Checking? {
      var e := StrayMoves(x, Check);
      StrayStep(s, x, Check);
      es, s' := [e], Next(s, e);
      StepSound(s, e);
      hide Sound, Run, CalcBatch;
    } else {
      es, s' := [], s;
    }
  }

  /** A straggler that times out then takes back a request that is not its own. */
  lemma TakesBack(s: Sys, id: nat, x: nat) returns (es: seq<Event>, s': Sys)
    requires HeldWith(s, id, x) && (s.strays[x].pc.Sleeping? || s.strays[x].pc.TimedOut?)
    ensures Run(s, es, s') && PatientSteps(es) && s'.locker.Held? && !BlocksTheFirst(s')
  {
    var e1, s1, fs := StrayMoves(x, TimeOut(false)), s, [];
    if s.strays[x].pc.Sleeping? {
      StrayStep(s, x, TimeOut(false));
      s1, fs := Next(s, e1), [e1];
    }
    assert Run(s, fs, s1);
    var e2 := StrayMoves(x, GiveUp);
    StrayStep(s1, x, GiveUp);
    s' := Next(s1, e2);
    RunsJoin(s, fs, s1, [e2], s');
    es := fs + [e2];
    hide Sound, Run, Picked, CalcBatch;
    assert id in Listed(s') && id in BlockedIds(s') && !Cell(s', id).block;
  }

  /** From a tight idle manager with a straggler for a listed blocker: a lock, an unlock, another
      lock, and the straggler's timeout. */
  lemma StragglerUndoesALock(s: Sys, id: nat, x: nat) returns (es: seq<Event>, s': Sys)
    requires IdleWith(s, id, s.strays, s.ledger.book.conf) && Tight(s)
    requires x < |s.strays| && s.strays[x].id == id && !s.strays[x].pc.Finished?
    ensures Run(s, es, s') && PatientSteps(es) && s'.locker.Held? && !BlocksTheFirst(s')
  {
    var e1, s1 := HoldOnce(s, id, x);
    var e2, s2 := Begun(s1, id, x);
    var s3 := LetGo(s2, id, x);
    var e4, s4 := Asleep(s3, id, x);
    var e5, s5 := HoldOnce(s4, id, x);
    var e6, s6 := TakesBack(s5, id, x);
    hide Run, HeldWith, IdleWith, BlocksTheFirst, Tight;
    RunsJoin(s, e1, s1, e2, s2);
    RunsJoin(s, e1 + e2, s2, [UnlockCalled], s3);
    RunsJoin(s, e1 + e2 + [UnlockCalled], s3, e4, s4);
    RunsJoin(s, e1 + e2 + [UnlockCalled] + e4, s4, e5, s5);
    RunsJoin(s, e1 + e2 + [UnlockCalled] + e4 + e5, s5, e6, s6);
    es, s' := e1 + e2 + [UnlockCalled] + e4 + e5 + e6, s6;
  }

  /** Exactly when stragglers matter. From a reachable idle manager, every lock of every patient run
      blocks the first of those who acked, if and only if no request task of a cancelled lock is
      still going for a listed blocker. Requests left over by such tasks, and tasks for blockers
      that were removed, do no harm. With neither a minimum nor a target, a batch can be nobody, which
      the code itself asserts against. */
  lemma StragglersAreTheDanger(c: Configure, before: seq<Event>, s: Sys)
    requires Run(NewSys(c), before, s) && s.locker.Idle? && (1 <= c.minBatch || 1 <= c.targetBatch)
    ensures (forall es, s' :: PatientRun(s, es, s') && s'.locker.Held? ==> BlocksTheFirst(s')) <==> NoStraggler(s)
  {
    if NoStraggler(s) {
      forall es, s' | PatientRun(s, es, s') && s'.locker.Held? ensures BlocksTheFirst(s') {
        PatientLocksAreRight(c, before, s, es, s');
      }
    } else {
      var x :| 0 <= x < |s.strays| && !s.strays[x].pc.Finished? && s.strays[x].id in Listed(s);
      var id := s.strays[x].id;
      Reachable(c, before, s);
      RunTidy(NewSys(c), before, s);
      RunConf(NewSys(c), before, s);
      assert LockerOk(s);
      var fs, s1 := MakeTight(s, id);
      var gs, s2 := StragglerUndoesALock(s1, id, x);
      RunsJoin(s, fs, s1, gs, s2);
      RunIsPatient(s, fs + gs, s2);
    }
  }

  /** A lock that looks with blockers enough begins to request, the first of the order included. */
  lemma LookRequests(s: Sys)
    requires Sound(s) && s.locker.CheckReady? && 1 <= CalcBatch(s.ledger.book.conf, |Blockers(s)|) <= |Blockers(s)|
    ensures var s' := LockLook(s);
            && s'.locker.Requesting? && |s'.locker.tasks| >= 1 && s'.strays == s.strays
            && s'.locker.tasks[0].pc.Unstarted? && s'.locker.tasks[0].id in Listed(s)
            && s'.ledger == L.Next(s.ledger, L.Lock)
  {
    assert LockerOk(s);
    OrderFacts(s);
    ChosenCoversBatch(Sort(Keys(Blockers(s))), CalcBatch(s.ledger.book.conf, |Blockers(s)|));
    hide Sound, Sort, CalcBatch, Chosen, DistinctIds, Sorted, AskedIds, NoStraggler;
  }

  /** Cancelled at that point, it leaves a task that has not begun, for a listed blocker. */
  lemma CancelLeaves(s: Sys)
    requires s.locker.Requesting? && |s.locker.tasks| >= 1 && s.ledger.book.locked && L.Settled(s.ledger.book)
    requires s.locker.tasks[0].pc.Unstarted? && s.locker.tasks[0].id in Listed(s)
    ensures Next(s, TasksCancelled).locker.Idle? && !NoStraggler(Next(s, TasksCancelled))
  {
    UnlockTidiesUp(s);
    UnlockedIsIdle(s);
    var u, s' := Unlocked(s), Next(s, TasksCancelled);
    assert u.strays == s.strays && Listed(s') == Listed(u);
    hide Unlocked, Listed, L.Settled;
    assert s'.strays[|s.strays|] == s.locker.tasks[0];
  }

  /** And a lock that is cancelled while it requests leaves stragglers: from any reachable idle
      manager with blockers enough, three steps do. */
  lemma CancellingLeavesStragglers(c: Configure, before: seq<Event>, s: Sys) returns (s': Sys)
    requires Run(NewSys(c), before, s) && s.locker.Idle?
    requires 1 <= CalcBatch(s.ledger.book.conf, |Blockers(s)|) <= |Blockers(s)|
    ensures Run(s, [LockCalled, LockLooks, TasksCancelled], s') && s'.locker.Idle? && !NoStraggler(s')
  {
    Reachable(c, before, s);
    RunTidy(NewSys(c), before, s);
    StepSound(s, LockCalled);
    var s1 := Next(s, LockCalled);
    var s2 := LockLook(s1);
    assert LockerOk(s);
    LookRequests(s1);
    CancelLeaves(s2);
    s' := Next(s2, TasksCancelled);
    ThreeSteps(s, LockCalled, LockLooks, TasksCancelled);
  }

  lemma ThreeSteps(s: Sys, a: Event, b: Event, c: Event)
    requires Enabled(s, a) && Enabled(Next(s, a), b) && Enabled(Next(Next(s, a), b), c)
    ensures Run(s, [a, b, c], Next(Next(Next(s, a), b), c))
  {
    hide Next, Enabled;
    OneStep(Next(Next(s, a), b), c);
    assert [a, b, c][1..] == [b, c] && [b, c][1..] == [c];
  }
}
