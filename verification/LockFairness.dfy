/** Calm runs of the locking protocol, in which nobody joins, leaves, lapses or cancels, are rounds
    of the schedule. */
module LockFairness {
  import opened BlockerManager
  import L = BlockerLedger
  import opened LockProtocol
  import opened LockSafety
  import opened LockPlan
  import opened LockRuns
  import opened FairSchedule

  // ---- An unlocked manager is tidy -----------------------------------------------------------------

  lemma StepTidy(s: Sys, e: Event)
    requires Enabled(s, e) && (!s.ledger.book.locked ==> L.Settled(s.ledger.book))
    ensures var s' := Next(s, e); !s'.ledger.book.locked ==> L.Settled(s'.ledger.book)
  {
    hide L.Next, L.Settled, Unlocked, LockLook, Cell;
    match e
    case Member(m) => L.StepKeepsTidy(s.ledger, m);
    case TasksCancelled => UnlockedTidy(s);
    case SyncCancelled(lost) => UnlockedTidy(WithAnswer(s, lost));
    case UnlockCalled => UnlockedTidy(s);
    case LockLooks => LookTidy(s);
    case LockWakes => ReadyTidy(s.ledger.book, Next(s, e).ledger.book);
    case LockGivesUp(_) => ReadyTidy(s.ledger.book, Next(s, e).ledger.book);
    case _ => BooklessKeepsLedger(s, e);
  }

  lemma ReadyTidy(b: Book, b': Book)
    requires b' == b.(ready := b'.ready)
    ensures L.Settled(b) == L.Settled(b')
  {
  }

  lemma LookTidy(s: Sys)
    requires !s.ledger.book.locked ==> L.Settled(s.ledger.book)
    ensures var s' := LockLook(s); !s'.ledger.book.locked ==> L.Settled(s'.ledger.book)
  {
    hide Sort, CalcBatch, Chosen;
  }

  lemma UnlockedTidy(s: Sys)
    requires !s.ledger.book.locked ==> L.Settled(s.ledger.book)
    ensures var s' := Unlocked(s); !s'.ledger.book.locked ==> L.Settled(s'.ledger.book)
  {
    if s.ledger.book.locked { L.StepKeepsTidy(s.ledger, L.UnlockAll(Asked(s))); }
  }

  lemma {:induction false} RunTidy(s: Sys, es: seq<Event>, s': Sys)
    requires Run(s, es, s') && (!s.ledger.book.locked ==> L.Settled(s.ledger.book))
    ensures !s'.ledger.book.locked ==> L.Settled(s'.ledger.book)
    decreases |es|
  {
    hide Next, Enabled, L.Settled;
    if es != [] {
      StepTidy(s, es[0]);
      RunTidy(Next(s, es[0]), es[1..], s');
    }
  }

  // ---- Calm runs -----------------------------------------------------------------------------------

  predicate Calm(e: Event)
  {
    !e.Member? && !(e.TaskMoves? && e.step.GiveUp?) && !e.TasksCancelled? && !e.SyncCancelled?
  }

  ghost predicate CalmState(s: Sys)
  {
    && Sound(s) && Exact(s) && Unhaunted(s) && L.Settled(s.ledger.book)
    && (InLock(s.locker) ==> !s.locker.plan.lapsed)
  }

  lemma {:induction false} AllValid(bs: seq<Info>)
    requires forall x :: x in bs ==> x.valid
    ensures ValidOnes(bs) == bs
  {
    if bs != [] { AllValid(bs[1..]); }
  }

  /** Unlocking a tidy book raises the epochs of those asked, and does nothing else to the keys. */
  lemma UnlockRaises(b: Book, asked: seq<bool>, ids: set<nat>)
    requires b.locked && L.Settled(b) && |asked| == |b.blockers|
    requires forall i :: 0 <= i < |asked| ==> (asked[i] <==> b.blockers[i].key.id in ids)
    ensures Keys(Unlock(b, asked).blockers) == BumpKeys(Keys(b.blockers), ids) && L.Settled(Unlock(b, asked))
  {
    var bumped := Bump(b.blockers, asked);
    assert forall x :: x in bumped ==> x.valid;
    AllValid(bumped);
    assert Admit([], b.nextEpoch) == [];
    hide ValidOnes, Admit;
    assert Unlock(b, asked).blockers == bumped;
    hide Unlock;
    assert forall i :: 0 <= i < |bumped| ==> Keys(bumped)[i] == BumpKeys(Keys(b.blockers), ids)[i];
  }

  /** Those asked to go on by an unlock after a lock in which nobody lapsed. */
  lemma AskedAreTheBatch(s: Sys)
    requires CalmState(s) && s.locker.Held?
    ensures var keys := Keys(Blockers(s)); var batch := CalcBatch(s.ledger.book.conf, |keys|);
            && s.ledger.book.locked && batch <= |Sort(keys)|
            && forall i :: 0 <= i < |Asked(s)| ==> (Asked(s)[i] <==>
                Blockers(s)[i].key.id in OrderIds(Sort(keys)[..batch]))
  {
    assert LockerOk(s);
    UnlapsedKeepsBatch(s);
    HeldFlags(s);
    var bs, asked := Blockers(s), Asked(s);
    hide CalcBatch, Sort, OrderIds, BlockedIds, Exact, Sound;
    assert forall i :: 0 <= i < |bs| ==> bs[i] in bs && bs[i].key.id in Listed(s);
  }

  lemma UnlockedBook(s: Sys)
    requires s.ledger.book.locked
    ensures Unlocked(s).ledger.book == Unlock(s.ledger.book, Asked(s))
  {
  }

  /** An unlock after a lock in which nobody lapsed is one round. */
  lemma UnlockIsARound(s: Sys)
    requires CalmState(s) && s.locker.Held?
    ensures Keys(Blockers(Unlocked(s))) == Round(Keys(Blockers(s)), CalcBatch(s.ledger.book.conf, |Keys(Blockers(s))|))
    ensures L.Settled(Unlocked(s).ledger.book) && Unlocked(s).ledger.book.conf == s.ledger.book.conf
  {
    AskedAreTheBatch(s);
    UnlockedBook(s);
    assert L.Settled(s.ledger.book);
    hide CalmState, Sort, CalcBatch, OrderIds, L.Settled, Unlocked, Bump, ValidOnes, Admit, BumpKeys, Asked;
    var keys := Keys(Blockers(s));
    UnlockRaises(s.ledger.book, Asked(s), OrderIds(Sort(keys)[..CalcBatch(s.ledger.book.conf, |keys|)]));
  }

  /** Every other calm step leaves the list and the configuration. */
  lemma QuietStep(s: Sys, e: Event)
    requires Enabled(s, e) && Calm(e) && !e.UnlockCalled?
    ensures var b, b' := s.ledger.book, Next(s, e).ledger.book;
            b'.conf == b.conf && b'.blockers == b.blockers && b'.requests == b.requests
    ensures InLock(Next(s, e).locker) && (InLock(s.locker) ==> !s.locker.plan.lapsed) ==> !Next(s, e).locker.plan.lapsed
  {
    hide Sort, CalcBatch, Chosen, Moved, WorkerMoved, CanMove, WorkerCan, NoStraggler, AskedIds;
  }

  /** The keys after so many rounds with the batch of a manager's configuration. */
  function AfterRounds(b: Book, n: nat): seq<Key>
  {
    Rounds(Keys(b.blockers), CalcBatch(b.conf, |Keys(b.blockers)|), n)
  }

  /** What a calm step does to the keys: an unlock makes a round, any other step leaves them. */
  lemma CalmStep(s: Sys, e: Event)
    requires CalmState(s) && Enabled(s, e) && Calm(e)
    ensures CalmState(Next(s, e)) && Next(s, e).ledger.book.conf == s.ledger.book.conf
    ensures Keys(Blockers(Next(s, e))) == AfterRounds(s.ledger.book, if e.UnlockCalled? then 1 else 0)
  {
    StepSound(s, e);
    StepExact(s, e);
    StepUnhaunted(s, e);
    UnlockedIsIdle(s);
    if e.UnlockCalled? {
      UnlockIsARound(s);
      OneRound(Keys(Blockers(s)), CalcBatch(s.ledger.book.conf, |Keys(Blockers(s))|));
      hide Sound, Exact, Unhaunted, Round, Rounds, CalcBatch, L.Settled, Unlocked;
    } else {
      QuietStep(s, e);
      hide Sound, Exact, Unhaunted, Round, CalcBatch, Next, Enabled;
    }
  }

  lemma OneRound(keys: seq<Key>, batch: nat)
    ensures Rounds(keys, batch, 1) == Round(keys, batch)
  {
    assert Rounds(keys, batch, 0) == keys;
  }

  function Unlocks(es: seq<Event>): nat
  {
    if es == [] then 0 else (if es[0].UnlockCalled? then 1 else 0) + Unlocks(es[1..])
  }

  lemma {:induction false} RoundsJoin(keys: seq<Key>, batch: nat, m: nat, n: nat)
    ensures Rounds(Rounds(keys, batch, m), batch, n) == Rounds(keys, batch, m + n)
  {
    hide Round;
    if n > 0 { RoundsJoin(keys, batch, m, n - 1); }
  }

  lemma {:induction false} CalmRunIsRounds(s: Sys, es: seq<Event>, s': Sys)
    requires CalmState(s) && Run(s, es, s') && forall e :: e in es ==> Calm(e)
    ensures Keys(Blockers(s')) == AfterRounds(s.ledger.book, Unlocks(es)) && CalmState(s')
    decreases |es|
  {
    hide CalmState, Next, Enabled, Calm, CalcBatch, Round;
    if es != [] {
      var e := es[0];
      assert e in es;
      CalmStep(s, e);
      CalmRunIsRounds(Next(s, e), es[1..], s');
      var keys := Keys(Blockers(s));
      RoundsJoin(keys, CalcBatch(s.ledger.book.conf, |keys|), if e.UnlockCalled? then 1 else 0, Unlocks(es[1..]));
    }
  }

  /** The whole protocol refines the schedule: from any reachable idle manager without stragglers,
      whatever happened before, a run in which nobody joins, leaves, lapses or cancels leaves the
      epochs exactly as so many rounds as there were unlocks, whatever the interleaving. */
  lemma LockingIsFair(c: Configure, before: seq<Event>, s: Sys, es: seq<Event>, s': Sys, spread: nat)
    requires Run(NewSys(c), before, s) && s.locker.Idle? && NoStraggler(s)
    requires Run(s, es, s') && forall e :: e in es ==> Calm(e)
    requires SpreadWithin(Keys(Blockers(s)), spread)
    ensures Keys(Blockers(s')) == AfterRounds(s.ledger.book, Unlocks(es))
    ensures SpreadWithin(Keys(Blockers(s')), Max(spread, 1))
  {
    IdleIsCalm(c, before, s);
    CalmRunIsRounds(s, es, s');
    KeysDistinct(s);
    var keys := Keys(Blockers(s));
    RoundsKeepSpread(keys, CalcBatch(s.ledger.book.conf, |keys|), Unlocks(es), spread);
  }

  lemma IdleIsCalm(c: Configure, before: seq<Event>, s: Sys)
    requires Run(NewSys(c), before, s) && s.locker.Idle? && NoStraggler(s)
    ensures CalmState(s)
  {
    Reachable(c, before, s);
    RunTidy(NewSys(c), before, s);
  }

  lemma KeysDistinct(s: Sys)
    requires Sound(s)
    ensures DistinctIds(Keys(Blockers(s)))
  {
  }
}
