/** What callers of add_blocker get: which steps hand a blocker to whom, who is told, and with how many
    epochs a blocker starts. */
module BlockerCalls {
  import opened BlockerManager
  import opened BlockerLedger

  /** The step hands the caller its blocker: at once, through its channel, or, if its wait is ended, from the
      list. A call that throws because the ready token was still there is handed none. */
  predicate HandsOut(l: Ledger, e: Event, id: nat)
  {
    match e
    case Add(_) => id == l.book.nextId && !l.book.locked && !(Crosses(l.book.conf, |l.book.blockers|) && l.book.ready)
    case ChannelRead(i) => id == i
    case AddCancelled(i, _) => id == i && id !in RequestIdsOf(l.book.requests) && id in IdsOf(l.book.blockers)
    case _ => false
  }

  predicate HandedOut(l: Ledger, es: seq<Event>, id: nat)
    decreases |es|
  {
    es != [] && Enabled(l, es[0]) && (HandsOut(l, es[0], id) || HandedOut(Next(l, es[0]), es[1..], id))
  }

  lemma StepHandsOut(l: Ledger, e: Event, id: nat)
    requires Enabled(l, e)
    ensures id in Next(l, e).returned <==> id in l.returned || HandsOut(l, e, id)
  {
    hide CalcBatch, WithoutRequest, WithoutBlocker, Invalidate, IdsOf, RequestIdsOf, InvalidIds;
  }

  lemma {:induction false} RunHandsOut(l: Ledger, es: seq<Event>, l': Ledger, id: nat)
    requires Run(l, es, l', false)
    ensures id in l'.returned <==> id in l.returned || HandedOut(l, es, id)
    decreases |es|
  {
    hide Next, Enabled, HandsOut;
    if es != [] {
      StepHandsOut(l, es[0], id);
      RunHandsOut(Next(l, es[0]), es[1..], l', id);
    }
  }

  /** A waiting caller can read its channel exactly if that has been written, once. */
  ghost predicate Told(l: Ledger) { forall id :: id in l.callers ==> (l.callers[id] <==> Written(l, id) == 1) }

  lemma StepTells(l: Ledger, e: Event)
    requires Balanced(l) && Told(l) && Enabled(l, e)
    ensures Told(Next(l, e))
    ensures e.UnlockAll? ==> forall id :: id in l.callers && id in RequestIdsOf(l.book.requests) ==>
              id in Next(l, e).callers && Next(l, e).callers[id]
  {
    hide CalcBatch, WithoutRequest, WithoutBlocker, Invalidate, IdsOf, RequestIdsOf, InvalidIds, Places;
    forall id | id in Next(l, e).callers
      ensures Next(l, e).callers[id] <==> Written(Next(l, e), id) == 1
    {
      assert IdOk(l, id);
    }
  }

  lemma {:induction false} RunTells(l: Ledger, es: seq<Event>, l': Ledger)
    requires Balanced(l) && Told(l) && Run(l, es, l', false)
    ensures Told(l')
    decreases |es|
  {
    hide Balanced, Told, Next, Enabled;
    if es != [] {
      StepKeeps(l, es[0]);
      StepTells(l, es[0]);
      RunTells(Next(l, es[0]), es[1..], l');
    }
  }

  /** Over every run: exactly those callers were handed a blocker to whom some step handed it; and one that
      waits has its blocker in its channel exactly if an unlock has written it. */
  lemma CallersGetTheirBlockers(c: Configure, es: seq<Event>, l: Ledger, id: nat)
    requires Run(NewLedger(c), es, l, false)
    ensures id in l.returned <==> HandedOut(NewLedger(c), es, id)
    ensures id in l.callers ==> (Enabled(l, ChannelRead(id)) <==> Written(l, id) == 1)
    ensures id in l.callers && id in RequestIdsOf(l.book.requests) ==> forall asked :: Enabled(l, UnlockAll(asked)) ==>
              Enabled(Next(l, UnlockAll(asked)), ChannelRead(id))
  {
    RunHandsOut(NewLedger(c), es, l, id);
    forall i ensures IdOk(NewLedger(c), i) {}
    RunTells(NewLedger(c), es, l);
    RunKeeps(NewLedger(c), es, l, false);
    hide Balanced, Run, Next;
    forall asked | Enabled(l, UnlockAll(asked)) && id in l.callers && id in RequestIdsOf(l.book.requests)
      ensures Enabled(Next(l, UnlockAll(asked)), ChannelRead(id))
    {
      StepTells(l, UnlockAll(asked));
    }
  }

  // ---- First epochs ------------------------------------------------------------------------------

  /** How many blockers have come to be listed. */
  function Joins(l: Ledger, es: seq<Event>): nat
    decreases |es|
  {
    if es == [] || !Enabled(l, es[0]) then 0
    else
      Joins(Next(l, es[0]), es[1..]) +
      if es[0].Add? then (if l.book.locked then 0 else 1)
      else if es[0].UnlockAll? then |l.book.requests|
      else 0
  }

  lemma StepJoins(l: Ledger, e: Event)
    requires Enabled(l, e)
    ensures Next(l, e).book.nextEpoch == l.book.nextEpoch +
            if e.Add? then (if l.book.locked then 0 else 1) else if e.UnlockAll? then |l.book.requests| else 0
  {
    hide CalcBatch, WithoutRequest, WithoutBlocker, Invalidate, ValidOnes, Bump;
  }

  lemma {:induction false} RunJoins(l: Ledger, es: seq<Event>, l': Ledger)
    requires Run(l, es, l', false)
    ensures l'.book.nextEpoch == l.book.nextEpoch + Joins(l, es)
    decreases |es|
  {
    hide Next, Enabled;
    if es != [] {
      StepJoins(l, es[0]);
      RunJoins(Next(l, es[0]), es[1..], l');
    }
  }

  /** Over every run, a blocker that joins at once is listed last, with the next id and with as many epochs
      as blockers were listed before it. */
  lemma JoinerStartsAtTheCount(c: Configure, es: seq<Event>, l: Ledger, priority: int)
    requires Run(NewLedger(c), es, l, false) && !l.book.locked
    ensures Next(l, Add(priority)).book.blockers ==
            l.book.blockers + [Info(Key(l.book.nextId, Joins(NewLedger(c), es), priority), true)]
  {
    RunJoins(NewLedger(c), es, l);
    hide Run, Joins, CalcBatch;
  }

  /** And an unlock lists the whole queue after those that stay, in its order, counting on. */
  lemma QueueStartsAtTheCount(c: Configure, es: seq<Event>, l: Ledger, asked: seq<bool>, i: nat)
    requires Run(NewLedger(c), es, l, false) && Enabled(l, UnlockAll(asked)) && i < |l.book.requests|
    ensures var b, now := l.book, Next(l, UnlockAll(asked)).book;
            var kept := |ValidOnes(Bump(b.blockers, asked))|;
            && |now.blockers| == kept + |b.requests| && !now.locked && now.requests == []
            && now.blockers[kept + i] ==
               Info(Key(b.requests[i].id, Joins(NewLedger(c), es) + i, b.requests[i].priority), true)
  {
    RunJoins(NewLedger(c), es, l);
    hide Run, Joins, CalcBatch, ValidOnes, Bump;
  }
}
