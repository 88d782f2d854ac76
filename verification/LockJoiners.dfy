/** How far a joiner can start behind: a lone blocker that is locked and unlocked n times. */
module LockJoiners {
  import opened BlockerManager
  import L = BlockerLedger
  import opened LockProtocol
  import opened LockSafety
  import opened LockPlan
  import opened LockRuns
  import opened LockRounds
  import opened LockFairness
  import opened LockStragglers
  import opened FairSchedule

  lemma {:induction false} UnlocksAdd(es: seq<Event>, fs: seq<Event>)
    ensures Unlocks(es + fs) == Unlocks(es) + Unlocks(fs)
  {
    if es == [] {
      assert es + fs == fs;
    } else {
      assert (es + fs)[1..] == es[1..] + fs;
      UnlocksAdd(es[1..], fs);
    }
  }

  lemma {:induction false} SmoothIsCalm(es: seq<Event>)
    requires forall e :: e in es ==> Smooth(e)
    ensures Unlocks(es) == 0 && forall e :: e in es ==> Calm(e)
  {
    if es != [] {
      assert es[0] in es;
      SmoothIsCalm(es[1..]);
    }
  }

  /** An idle manager whose batch is everyone. */
  ghost predicate Ready(s: Sys)
  {
    Sound(s) && s.locker.Idle? && Tight(s) && L.Settled(s.ledger.book)
  }

  ghost predicate CalmRun(s: Sys, es: seq<Event>, s': Sys, unlocks: nat)
  {
    Run(s, es, s') && Unlocks(es) == unlocks && forall e :: e in es ==> Calm(e)
  }

  lemma LockAndUnlock(s: Sys) returns (es: seq<Event>, s': Sys)
    requires Ready(s)
    ensures CalmRun(s, es, s', 1) && Ready(s') && s'.strays == s.strays &&
        s'.ledger.book.nextEpoch == s.ledger.book.nextEpoch
  {
    var fs, s1 := LockEveryone(s);
    SmoothIsCalm(fs);
    assert s1.ledger.book == s.ledger.book.(locked := true);
    s' := Next(s1, UnlockCalled);
    OneStep(s1, UnlockCalled);
    StepSound(s1, UnlockCalled);
    UnlockTidiesUp(s1);
    UnlockedIsIdle(s1);
    RunsJoin(s, fs, s1, [UnlockCalled], s');
    UnlocksAdd(fs, [UnlockCalled]);
    assert [UnlockCalled][1..] == [];
    assert Unlocks([UnlockCalled]) == 1;
    es := fs + [UnlockCalled];
  }

  lemma {:induction false} LockAndUnlockTimes(s: Sys, n: nat) returns (es: seq<Event>, s': Sys)
    requires Ready(s)
    ensures CalmRun(s, es, s', n) && Ready(s') && s'.strays == s.strays &&
        s'.ledger.book.nextEpoch == s.ledger.book.nextEpoch
  {
    hide Ready;
    if n == 0 {
      es, s' := [], s;
    } else {
      var fs, s1 := LockAndUnlockTimes(s, n - 1);
      var gs, s2 := LockAndUnlock(s1);
      RunsJoin(s, fs, s1, gs, s2);
      UnlocksAdd(fs, gs);
      es, s' := fs + gs, s2;
    }
  }

  /** Fairness needs fixed membership: some run locks and unlocks a lone blocker n times, and then
      the spread that a joiner makes is exactly n - 1. */
  lemma JoinersStartBehind(n: nat) returns (es: seq<Event>, s: Sys)
    requires n >= 1
    ensures Run(NewSys(Configure(0, 1)), es, s) && s.locker.Idle? && Keys(Blockers(s)) == [Key(0, n, 0)]
    ensures forall spread: nat :: SpreadWithin(Keys(AddBlocker(s.ledger.book, 0).0.blockers), spread) <==>
        spread >= n - 1
  {
    var s0, join := NewSys(Configure(0, 1)), Member(L.Add(0));
    var s1 := Next(s0, join);
    OneStep(s0, join);
    Reachable(Configure(0, 1), [join], s1);
    RunTidy(s0, [join], s1);
    assert Blockers(s1) == [Info(Key(0, 0, 0), true)] && s1.strays == [];
    var fs, s2 := LockAndUnlockTimes(s1, n);
    RunsJoin(s0, [join], s1, fs, s2);
    es, s := [join] + fs, s2;
    IdleIsCalm(Configure(0, 1), [join], s1);
    CalmRunIsRounds(s1, fs, s2);
    LonerRises(n);
    assert Keys(Blockers(s1)) == [Key(0, 0, 0)];
    JoinSpreads(s.ledger.book, n);
  }

  lemma JoinSpreads(b: Book, n: nat)
    requires n >= 1 && !b.locked && b.nextEpoch == 1 && Keys(b.blockers) == [Key(0, n, 0)]
    ensures forall spread: nat :: SpreadWithin(Keys(AddBlocker(b, 0).0.blockers), spread) <==> spread >= n - 1
  {
    assert |b.blockers| == |Keys(b.blockers)| && Keys(b.blockers)[0] == b.blockers[0].key;
    forall spread: nat ensures SpreadWithin(Keys(AddBlocker(b, 0).0.blockers), spread) <==> spread >= n - 1 {
      JoiningKeepsSpread(b, 0, spread);
    }
  }
}
