/** Where every blocker id is, over all runs of the manager's critical sections and of the callers
    of add_blocker that wait for an unlock. */
module BlockerLedger {
  import opened BlockerManager

  /** What became of ids, and the suspended callers of add_blocker: for each, whether its channel
      holds a blocker. `written` counts the writes to every such channel; `impossible` is set where
      the code throws its "this is impossible" error. */
  datatype Ledger = Ledger(
    book: Book, returned: set<nat>, cancelled: set<nat>, removed: set<nat>,
    callers: map<nat, bool>, written: map<nat, nat>, impossible: bool)

  function NewLedger(c: Configure): Ledger { Ledger(NewBook(c), {}, {}, {}, map[], map[], false) }

  function IdsOf(blockers: seq<Info>): set<nat> { set x | x in blockers :: x.key.id }

  function RequestIdsOf(requests: seq<Request>): set<nat> { set r | r in requests :: r.id }

  function InvalidIds(blockers: seq<Info>): set<nat> { set x | x in blockers && !x.valid :: x.key.id }

  datatype Event =
    | Add(priority: int)
    | ChannelRead(id: nat)                 // a suspended add_blocker gets its blocker
    | AddCancelled(id: nat, taken: bool)   // its closer ends the wait, before or after the channel was read
    | Remove(id: nat)
    | Lock
    | UnlockAll(asked: seq<bool>)

  predicate Enabled(l: Ledger, e: Event)
  {
    match e
    case Add(_) => true
    case ChannelRead(id) => id in l.callers && l.callers[id]
    case AddCancelled(id, taken) => id in l.callers && (taken ==> l.callers[id])
    case Remove(_) => true
    case Lock => !l.book.locked && CalcBatch(l.book.conf, |l.book.blockers|) <= |l.book.blockers|
    case UnlockAll(asked) => l.book.locked && |asked| == |l.book.blockers|
  }

  function Written(l: Ledger, id: nat): nat { if id in l.written then l.written[id] else 0 }

  function Next(l: Ledger, e: Event): Ledger
    requires Enabled(l, e)
  {
    var bs, rs := IdsOf(l.book.blockers), RequestIdsOf(l.book.requests);
    match e
    case Add(priority) =>
      var (b, j) := AddBlocker(l.book, priority);
      if j.Joined? then l.(book := b, returned := l.returned + {l.book.nextId})
      else if j.Queued? then l.(book := b, callers := l.callers[l.book.nextId := false])
      else l.(book := b)
    case ChannelRead(id) => l.(callers := l.callers - {id}, returned := l.returned + {id})
    case AddCancelled(id, taken) =>
      var l' := l.(callers := l.callers - {id});
      if id in rs then
        l'.(book := l.book.(requests := WithoutRequest(l.book.requests, id)), cancelled := l.cancelled + {id})
      else if id in bs then l'.(returned := l.returned + {id})
      else l'.(impossible := true)
    case Remove(id) =>
      l.(book := RemoveBlocker(l.book, id),
         removed := if id in rs || (id in bs && !l.book.locked) then l.removed + {id} else l.removed)
    case Lock => l.(book := l.book.(locked := true))
    case UnlockAll(asked) =>
      l.(book := Unlock(l.book, asked),
         removed := l.removed + InvalidIds(l.book.blockers),
         callers := map id | id in l.callers :: l.callers[id] || id in rs,
         written := map id | id in l.written.Keys + rs :: Written(l, id) + if id in rs then 1 else 0)
  }

  lemma ConfStays(l: Ledger, e: Event)
    requires Enabled(l, e)
    ensures Next(l, e).book.conf == l.book.conf
  {
    hide CalcBatch, WithoutRequest, WithoutBlocker, Invalidate;
  }

  // ---- Lists and their ids ---------------------------------------------------------------------

  predicate DistinctRequests(rs: seq<Request>) { forall i, j :: 0 <= i < j < |rs| ==> rs[i].id != rs[j].id }

  predicate DistinctBlockers(bs: seq<Info>) { forall i, j :: 0 <= i < j < |bs| ==> bs[i].key.id != bs[j].key.id }

  lemma {:induction false} WithoutRequestMeaning(rs: seq<Request>, id: nat)
    ensures forall r :: r in WithoutRequest(rs, id) <==> r in rs && r.id != id
    ensures DistinctRequests(rs) ==> DistinctRequests(WithoutRequest(rs, id))
  {
    if rs != [] {
      WithoutRequestMeaning(rs[1..], id);
      var r := WithoutRequest(rs[1..], id);
      assert forall i :: 0 <= i < |r| ==> r[i] in rs[1..];
    }
  }

  lemma {:induction false} WithoutBlockerMeaning(bs: seq<Info>, id: nat)
    ensures forall x :: x in WithoutBlocker(bs, id) <==> x in bs && x.key.id != id
    ensures DistinctBlockers(bs) ==> DistinctBlockers(WithoutBlocker(bs, id))
  {
    if bs != [] {
      WithoutBlockerMeaning(bs[1..], id);
      var r := WithoutBlocker(bs[1..], id);
      assert forall i :: 0 <= i < |r| ==> r[i] in bs[1..];
    }
  }

  lemma {:induction false} ValidOnesMeaning(bs: seq<Info>)
    ensures forall x :: x in ValidOnes(bs) <==> x in bs && x.valid
    ensures DistinctBlockers(bs) ==> DistinctBlockers(ValidOnes(bs))
  {
    if bs != [] {
      ValidOnesMeaning(bs[1..]);
      var r := ValidOnes(bs[1..]);
      assert bs == [bs[0]] + bs[1..];
      assert ValidOnes(bs) == if bs[0].valid then [bs[0]] + r else r;
      hide ValidOnes;
      assert forall i :: 0 <= i < |r| ==> r[i] in r && r[i] in bs[1..];
    }
  }

  /** Marking a blocker changes no key, and no one else's mark. */
  lemma {:induction false} InvalidateMeaning(bs: seq<Info>, id: nat)
    ensures |Invalidate(bs, id)| == |bs|
    ensures forall i :: 0 <= i < |bs| ==>
              && Invalidate(bs, id)[i].key == bs[i].key
              && (bs[i].key.id != id ==> Invalidate(bs, id)[i] == bs[i])
  {
    if bs != [] { InvalidateMeaning(bs[1..], id); }
  }

  lemma BumpMeaning(bs: seq<Info>, asked: seq<bool>)
    requires |asked| == |bs|
    ensures IdsOf(Bump(bs, asked)) == IdsOf(bs) && InvalidIds(Bump(bs, asked)) == InvalidIds(bs)
    ensures DistinctBlockers(bs) ==> DistinctBlockers(Bump(bs, asked))
  {
    var c := Bump(bs, asked);
    assert forall i :: 0 <= i < |bs| ==>
          bs[i] in bs && c[i] in c && c[i].key.id == bs[i].key.id && c[i].valid == bs[i].valid;
  }

  lemma AdmitMeaning(rs: seq<Request>, epoch: nat)
    ensures IdsOf(Admit(rs, epoch)) == RequestIdsOf(rs) && forall x :: x in Admit(rs, epoch) ==> x.valid
    ensures DistinctRequests(rs) ==> DistinctBlockers(Admit(rs, epoch))
  {
    var c := Admit(rs, epoch);
    assert forall i :: 0 <= i < |rs| ==> rs[i] in rs && c[i] in c && c[i].key.id == rs[i].id;
  }

  // ---- The ledger balances -----------------------------------------------------------------------

  function One(b: bool): nat { if b then 1 else 0 }

  /** In how many places an id is: listed, queued, cancelled, removed. */
  function Places(l: Ledger, id: nat): nat
  {
    One(id in IdsOf(l.book.blockers)) + One(id in RequestIdsOf(l.book.requests)) + One(id in l.cancelled) +
        One(id in l.removed)
  }

  /** An issued id is in one place, its channel is written at most once, and not while it is queued;
      a suspended caller's id was neither cancelled nor given out. */
  predicate IdOk(l: Ledger, id: nat)
  {
    && Places(l, id) == One(id < l.book.nextId)
    && Written(l, id) <= 1
    && (id in RequestIdsOf(l.book.requests) || id >= l.book.nextId ==> Written(l, id) == 0)
    && (id in l.callers ==> id < l.book.nextId && (l.callers[id] ==> Written(l, id) == 1))
    && (id in l.callers ==> id !in l.cancelled && id !in l.returned)
    && (id in l.returned ==> id < l.book.nextId)
  }

  ghost predicate Balanced(l: Ledger)
  {
    && DistinctBlockers(l.book.blockers) && DistinctRequests(l.book.requests)
    && forall id :: IdOk(l, id)
  }

  /** A suspended caller's id is queued, or listed and not marked. */
  predicate CallerOk(l: Ledger, id: nat)
  {
    id in l.callers ==>
      && id !in InvalidIds(l.book.blockers)
      && (id in RequestIdsOf(l.book.requests) || id in IdsOf(l.book.blockers))
  }

  ghost predicate Polite(l: Ledger) { !l.impossible && forall id :: CallerOk(l, id) }

  /** What one step does to the lists, id by id. */
  ghost predicate Lists(l: Ledger, l': Ledger, id: nat, listed: bool, queued: bool, marked: bool)
  {
    && (id in IdsOf(l'.book.blockers) <==> listed)
    && (id in RequestIdsOf(l'.book.requests) <==> queued)
    && (id in InvalidIds(l'.book.blockers) ==> marked)
  }

  lemma JoinIds(bs: seq<Info>, x: Info)
    requires x.valid
    ensures IdsOf(bs + [x]) == IdsOf(bs) + {x.key.id} && InvalidIds(bs + [x]) == InvalidIds(bs)
    ensures DistinctBlockers(bs) && x.key.id !in IdsOf(bs) ==> DistinctBlockers(bs + [x])
  {
    assert x in bs + [x] && forall y :: y in bs ==> y in bs + [x];
    assert forall i :: 0 <= i < |bs| ==> bs[i] in bs;
  }

  lemma QueueIds(rs: seq<Request>, r: Request)
    ensures RequestIdsOf(rs + [r]) == RequestIdsOf(rs) + {r.id}
    ensures DistinctRequests(rs) && r.id !in RequestIdsOf(rs) ==> DistinctRequests(rs + [r])
  {
    assert r in rs + [r] && forall q :: q in rs ==> q in rs + [r];
    assert forall i :: 0 <= i < |rs| ==> rs[i] in rs;
  }

  lemma AddLists(l: Ledger, priority: int)
    requires Balanced(l)
    ensures var l', n := Next(l, Add(priority)), l.book.nextId;
            && (forall id :: Lists(l, l', id, id in IdsOf(l.book.blockers) || (!l.book.locked && id == n),
                                   id in RequestIdsOf(l.book.requests) || (l.book.locked && id == n),
                                   id in InvalidIds(l.book.blockers)))
            && DistinctBlockers(l'.book.blockers) && DistinctRequests(l'.book.requests)
  {
    var n := l.book.nextId;
    assert IdOk(l, n);
    QueueIds(l.book.requests, Request(n, priority));
    JoinIds(l.book.blockers, Info(Key(n, l.book.nextEpoch, priority), true));
    hide DistinctBlockers, DistinctRequests, IdsOf, RequestIdsOf, InvalidIds, IdOk;
  }

  lemma AddKeeps(l: Ledger, priority: int)
    requires Balanced(l)
    ensures var l' := Next(l, Add(priority)); Balanced(l') && (Polite(l) ==> Polite(l'))
  {
    AddLists(l, priority);
    hide DistinctBlockers, DistinctRequests, IdsOf, RequestIdsOf, InvalidIds;
    var l' := Next(l, Add(priority));
    forall id ensures IdOk(l', id) && (Polite(l) ==> CallerOk(l', id)) {
      assert IdOk(l, id) && Lists(l, l', id, id in IdsOf(l.book.blockers) || (!l.book.locked && id == l.book.nextId),
                                   id in RequestIdsOf(l.book.requests) || (l.book.locked && id == l.book.nextId),
                                   id in InvalidIds(l.book.blockers));
      if Polite(l) { assert CallerOk(l, id); }
    }
  }

  lemma CancelKeeps(l: Ledger, id: nat, taken: bool)
    requires Balanced(l) && Enabled(l, AddCancelled(id, taken))
    ensures var l' := Next(l, AddCancelled(id, taken)); Balanced(l') && (Polite(l) ==> Polite(l'))
  {
    var l' := Next(l, AddCancelled(id, taken));
    WithoutRequestMeaning(l.book.requests, id);
    assert RequestIdsOf(l'.book.requests) == RequestIdsOf(l.book.requests) - {id};
    hide DistinctBlockers, DistinctRequests, IdsOf, RequestIdsOf, InvalidIds;
    assert IdOk(l, id);
    if Polite(l) { assert CallerOk(l, id); }
    forall k ensures IdOk(l', k) && (Polite(l) ==> CallerOk(l', k)) {
      assert IdOk(l, k);
      if Polite(l) { assert CallerOk(l, k); }
    }
  }

  lemma MarkingKeepsLists(bs: seq<Info>, id: nat)
    ensures IdsOf(Invalidate(bs, id)) == IdsOf(bs) && InvalidIds(Invalidate(bs, id)) <= InvalidIds(bs) + {id}
    ensures DistinctBlockers(bs) ==> DistinctBlockers(Invalidate(bs, id))
  {
    InvalidateMeaning(bs, id);
    var cs := Invalidate(bs, id);
    hide Invalidate;
    assert forall i :: 0 <= i < |bs| ==> bs[i] in bs && cs[i] in cs && cs[i].key.id == bs[i].key.id;
  }

  lemma RemoveLists(l: Ledger, id: nat)
    requires Balanced(l)
    ensures var b := RemoveBlocker(l.book, id);
            && RequestIdsOf(b.requests) == RequestIdsOf(l.book.requests) - {id}
            && IdsOf(b.blockers) == (if l.book.locked then IdsOf(l.book.blockers) else IdsOf(l.book.blockers) - {id})
            && InvalidIds(b.blockers) <= InvalidIds(l.book.blockers) + {id}
            && DistinctBlockers(b.blockers) && DistinctRequests(b.requests)
  {
    assert DistinctBlockers(l.book.blockers) && DistinctRequests(l.book.requests);
    hide Balanced, DistinctBlockers, DistinctRequests, WithoutRequest, WithoutBlocker, Invalidate;
    WithoutRequestMeaning(l.book.requests, id);
    if l.book.locked { MarkingKeepsLists(l.book.blockers, id); }
    else { WithoutBlockerMeaning(l.book.blockers, id); }
  }

  lemma RemoveKeeps(l: Ledger, id: nat)
    requires Balanced(l)
    ensures var l' := Next(l, Remove(id)); Balanced(l') && (Polite(l) && id in l.returned ==> Polite(l'))
  {
    RemoveLists(l, id);
    hide DistinctBlockers, DistinctRequests, IdsOf, RequestIdsOf, InvalidIds;
    var l' := Next(l, Remove(id));
    forall k ensures IdOk(l', k) && (Polite(l) && id in l.returned ==> CallerOk(l', k)) {
      assert IdOk(l, k);
      if Polite(l) { assert CallerOk(l, k); }
    }
  }

  lemma UnlockIds(b: Book, asked: seq<bool>)
    requires |asked| == |b.blockers| && b.locked && DistinctBlockers(b.blockers) && DistinctRequests(b.requests)
    requires IdsOf(b.blockers) !! RequestIdsOf(b.requests)
    ensures var b' := Unlock(b, asked);
            && IdsOf(b'.blockers) == (IdsOf(b.blockers) - InvalidIds(b.blockers)) + RequestIdsOf(b.requests)
            && InvalidIds(b'.blockers) == {} && DistinctBlockers(b'.blockers)
  {
    var bumped := Bump(b.blockers, asked);
    var kept, admitted := ValidOnes(bumped), Admit(b.requests, b.nextEpoch);
    BumpMeaning(b.blockers, asked);
    ValidOnesMeaning(bumped);
    AdmitMeaning(b.requests, b.nextEpoch);
    IdsOfValid(bumped);
    var all := kept + admitted;
    forall id ensures id in IdsOf(all) <==> id in IdsOf(kept) + IdsOf(admitted) {
      if id in IdsOf(all) { var x :| x in all && x.key.id == id; assert x in kept || x in admitted; }
      if id in IdsOf(kept) { var x :| x in kept && x.key.id == id; assert x in all; }
      if id in IdsOf(admitted) { var x :| x in admitted && x.key.id == id; assert x in all; }
    }
    forall i, j | 0 <= i < j < |all| ensures all[i].key.id != all[j].key.id {
      assert i < |kept| ==> all[i] == kept[i] && kept[i].key.id in IdsOf(kept);
      assert j >= |kept| ==> all[j] == admitted[j - |kept|] && admitted[j - |kept|].key.id in IdsOf(admitted);
    }
  }

  lemma IdsOfValid(bs: seq<Info>)
    requires DistinctBlockers(bs)
    ensures IdsOf(ValidOnes(bs)) == IdsOf(bs) - InvalidIds(bs)
  {
    ValidOnesMeaning(bs);
    forall x, y | x in bs && y in bs && x.key.id == y.key.id ensures x == y {
      var i :| 0 <= i < |bs| && bs[i] == x;
      var j :| 0 <= j < |bs| && bs[j] == y;
      assert i == j;
    }
  }

  lemma UnlockKeeps(l: Ledger, asked: seq<bool>)
    requires Balanced(l) && Enabled(l, UnlockAll(asked))
    ensures var l' := Next(l, UnlockAll(asked)); Balanced(l') && (Polite(l) ==> Polite(l'))
  {
    forall id ensures !(id in IdsOf(l.book.blockers) && id in RequestIdsOf(l.book.requests)) { assert IdOk(l, id); }
    UnlockIds(l.book, asked);
    assert InvalidIds(l.book.blockers) <= IdsOf(l.book.blockers);
    var l' := Next(l, UnlockAll(asked));
    assert RequestIdsOf(l'.book.requests) == {};
    hide DistinctBlockers, IdsOf, RequestIdsOf, InvalidIds, Unlock;
    forall k ensures IdOk(l', k) && (Polite(l) ==> CallerOk(l', k)) {
      assert IdOk(l, k);
      if Polite(l) { assert CallerOk(l, k); }
    }
  }

  lemma StepKeeps(l: Ledger, e: Event)
    requires Balanced(l) && Enabled(l, e)
    ensures Balanced(Next(l, e))
    ensures Polite(l) && (e.Remove? ==> e.id in l.returned) ==> Polite(Next(l, e))
  {
    hide DistinctBlockers, DistinctRequests, IdsOf, RequestIdsOf, InvalidIds;
    match e
    case Add(priority) => AddKeeps(l, priority);
    case AddCancelled(id, taken) => CancelKeeps(l, id, taken);
    case Remove(id) => RemoveKeeps(l, id);
    case UnlockAll(asked) => UnlockKeeps(l, asked);
    case _ =>
      var l' := Next(l, e);
      forall k ensures IdOk(l', k) && (Polite(l) ==> CallerOk(l', k)) {
        assert IdOk(l, k);
        if Polite(l) { assert CallerOk(l, k); }
      }
  }

  ghost predicate Run(l: Ledger, es: seq<Event>, l': Ledger, polite: bool)
    decreases |es|
  {
    if es == [] then l == l'
    else
      && Enabled(l, es[0]) && (polite && es[0].Remove? ==> es[0].id in l.returned)
      && Run(Next(l, es[0]), es[1..], l', polite)
  }

  lemma {:induction false} RunKeeps(l: Ledger, es: seq<Event>, l': Ledger, polite: bool)
    requires Balanced(l) && Run(l, es, l', polite)
    ensures Balanced(l')
    ensures polite && Polite(l) ==> Polite(l')
    decreases |es|
  {
    hide Balanced, Polite, Next, Enabled;
    if es != [] {
      StepKeeps(l, es[0]);
      RunKeeps(Next(l, es[0]), es[1..], l', polite);
    }
  }

  /** Over every run: an issued id is listed, queued, cancelled or removed, and only one of these,
      and listed or queued once; and no channel of a queued caller is ever written twice. */
  lemma EveryIdIsInOnePlace(c: Configure, es: seq<Event>, l: Ledger)
    requires Run(NewLedger(c), es, l, false)
    ensures forall id: nat :: Places(l, id) == One(id < l.book.nextId)
    ensures DistinctBlockers(l.book.blockers) && DistinctRequests(l.book.requests)
    ensures forall id: nat :: Written(l, id) <= 1
    ensures forall id :: id in RequestIdsOf(l.book.requests) && id in l.callers ==> !l.callers[id]
  {
    forall id ensures IdOk(NewLedger(c), id) {}
    RunKeeps(NewLedger(c), es, l, false);
    forall id: nat ensures Places(l, id) == One(id < l.book.nextId) && Written(l, id) <= 1 { assert IdOk(l, id); }
    forall id | id in RequestIdsOf(l.book.requests) && id in l.callers ensures !l.callers[id] { assert IdOk(l, id); }
  }

  /** If callers remove only ids they were given, the "this is impossible" error is: a cancelled
      add_blocker always finds its id queued or listed. */
  lemma ImpossibleIsImpossible(c: Configure, es: seq<Event>, l: Ledger)
    requires Run(NewLedger(c), es, l, true)
    ensures !l.impossible
    ensures forall id :: id in l.callers ==> id in RequestIdsOf(l.book.requests) || id in IdsOf(l.book.blockers)
  {
    forall id ensures IdOk(NewLedger(c), id) && CallerOk(NewLedger(c), id) {}
    RunKeeps(NewLedger(c), es, l, true);
    forall id | id in l.callers ensures id in RequestIdsOf(l.book.requests) ||
      id in IdsOf(l.book.blockers) { assert CallerOk(l, id); }
  }

  // ---- When the impossible happens ---------------------------------------------------------------

  /** Nobody is queued or marked. */
  predicate Settled(b: Book) { b.requests == [] && forall x :: x in b.blockers ==> x.valid }

  lemma StepKeepsTidy(l: Ledger, e: Event)
    requires Enabled(l, e) && (!l.book.locked ==> Settled(l.book))
    ensures var l' := Next(l, e); !l'.book.locked ==> Settled(l'.book)
  {
    match e
    case Add(_) =>
    case Remove(id) =>
      WithoutBlockerMeaning(l.book.blockers, id);
    case AddCancelled(id, taken) =>
      WithoutRequestMeaning(l.book.requests, id);
    case UnlockAll(asked) =>
      ValidOnesMeaning(Bump(l.book.blockers, asked));
      AdmitMeaning(l.book.requests, l.book.nextEpoch);
    case _ =>
  }

  lemma {:induction false} RunKeepsTidy(l: Ledger, es: seq<Event>, l': Ledger)
    requires Run(l, es, l', false) && (!l.book.locked ==> Settled(l.book))
    ensures !l'.book.locked ==> Settled(l'.book)
    decreases |es|
  {
    hide Next, Enabled, Settled;
    if es != [] {
      StepKeepsTidy(l, es[0]);
      RunKeepsTidy(Next(l, es[0]), es[1..], l');
    }
  }

  /** Removed, or marked to be removed by the next unlock. */
  predicate Doomed(l: Ledger, id: nat) { id in l.removed || id in InvalidIds(l.book.blockers) }

  lemma {:induction false} InvalidateMarks(bs: seq<Info>, id: nat)
    requires id in IdsOf(bs)
    ensures id in InvalidIds(Invalidate(bs, id))
  {
    if bs[0].key.id == id {
      assert Invalidate(bs, id)[0].key.id == id && Invalidate(bs, id)[0] in Invalidate(bs, id);
    } else {
      var x :| x in bs && x.key.id == id;
      assert x in bs[1..];
      InvalidateMarks(bs[1..], id);
      var y :| y in Invalidate(bs[1..], id) && !y.valid && y.key.id == id;
      assert y in Invalidate(bs, id);
    }
  }

  /** What a removal does to the marks. */
  lemma RemovalMarks(b: Book, id: nat, k: nat)
    ensures var b' := RemoveBlocker(b, id);
            && (k != id ==> (k in InvalidIds(b'.blockers) <==> k in InvalidIds(b.blockers)))
            && (b.locked && id in IdsOf(b.blockers) ==> id in InvalidIds(b'.blockers))
            && (k in InvalidIds(b'.blockers) && b.locked ==> k in IdsOf(b.blockers))
  {
    var bs, cs := b.blockers, RemoveBlocker(b, id).blockers;
    if b.locked {
      InvalidateMeaning(bs, id);
      if id in IdsOf(bs) { InvalidateMarks(bs, id); }
      assert forall i :: 0 <= i < |bs| ==> bs[i] in bs && cs[i] in cs && cs[i].key.id == bs[i].key.id;
      assert forall i :: 0 <= i < |bs| && bs[i].key.id != id ==> cs[i] == bs[i];
    } else {
      WithoutBlockerMeaning(bs, id);
    }
  }

  lemma StepDooms(l: Ledger, e: Event, id: nat)
    requires Balanced(l) && Enabled(l, e) && id in l.callers && id in Next(l, e).callers
    ensures Doomed(Next(l, e), id) <==> Doomed(l, id) || e == Remove(id)
  {
    assert IdOk(l, id);
    match e
    case Add(priority) => JoinIds(l.book.blockers, Info(Key(l.book.nextId, l.book.nextEpoch, priority), true));
    case Remove(k) => RemovalMarks(l.book, k, id);
    case UnlockAll(asked) =>
      forall k ensures !(k in IdsOf(l.book.blockers) && k in RequestIdsOf(l.book.requests)) { assert IdOk(l, k); }
      UnlockIds(l.book, asked);
    case _ =>
  }

  lemma {:induction false} NeverCallsAgain(l: Ledger, es: seq<Event>, l': Ledger, id: nat)
    requires Run(l, es, l', false) && id < l.book.nextId && id !in l.callers
    ensures id !in l'.callers
    decreases |es|
  {
    if es != [] {
      assert Next(l, es[0]).book.nextId >= l.book.nextId;
      NeverCallsAgain(Next(l, es[0]), es[1..], l', id);
    }
  }

  lemma {:induction false} RunDooms(l: Ledger, es: seq<Event>, l': Ledger, id: nat)
    requires Balanced(l) && Run(l, es, l', false) && id in l.callers && id in l'.callers
    ensures Doomed(l', id) <==> Doomed(l, id) || Remove(id) in es
    decreases |es|
  {
    hide Balanced, Doomed, Next, Enabled;
    if es != [] {
      var l1 := Next(l, es[0]);
      CallerIsIssued(l, es[0], id);
      if id !in l1.callers { NeverCallsAgain(l1, es[1..], l', id); }
      StepDooms(l, es[0], id);
      StepKeeps(l, es[0]);
      RunDooms(l1, es[1..], l', id);
      assert es == [es[0]] + es[1..];
    }
  }

  lemma CallerIsIssued(l: Ledger, e: Event, id: nat)
    requires Balanced(l) && Enabled(l, e) && id in l.callers
    ensures id < Next(l, e).book.nextId
  {
    assert IdOk(l, id);
    assert Next(l, e).book.nextId >= l.book.nextId;
  }

  /** Exactly when a cancelled add_blocker finds its id neither queued nor listed: when the id has
      been removed. And who removes it is a caller that was not given it: the id is removed, or
      marked while the manager is locked, just if a removal of it was called while its own
      add_blocker was still waiting. */
  lemma ImpossibleExactly(c: Configure, before: seq<Event>, l0: Ledger, priority: int, es: seq<Event>, l: Ledger,
    taken: bool)
    requires Run(NewLedger(c), before, l0, false) && l0.book.locked
    requires Run(Next(l0, Add(priority)), es, l, false) && Enabled(l, AddCancelled(l0.book.nextId, taken))
    ensures var id := l0.book.nextId;
            && id !in l.returned
            && (Next(l, AddCancelled(id, taken)).impossible <==> l.impossible || id in l.removed)
            && (id in l.removed || id in InvalidIds(l.book.blockers) <==> Remove(id) in es)
            && (id in InvalidIds(l.book.blockers) ==> l.book.locked)
  {
    var id, l1 := l0.book.nextId, Next(l0, Add(priority));
    forall k ensures IdOk(NewLedger(c), k) {}
    RunKeeps(NewLedger(c), before, l0, false);
    RunKeepsTidy(NewLedger(c), before, l0);
    StepKeeps(l0, Add(priority));
    StepKeepsTidy(l0, Add(priority));
    RunKeeps(l1, es, l, false);
    RunKeepsTidy(l1, es, l);
    assert IdOk(l0, id) && IdOk(l, id);
    RunDooms(l1, es, l, id);
    InvalidIsListed(l0.book.blockers);
  }

  lemma InvalidIsListed(bs: seq<Info>)
    ensures InvalidIds(bs) <= IdsOf(bs)
  {
  }

  const ALONE := [Info(Key(0, 0, 0), true)]

  /** A manager with one blocker, after a second caller was queued, and perhaps removed. */
  function Crowd(locked: bool, nextId: nat, requests: seq<Request>, callers: map<nat, bool>, removed: set<nat>): Ledger
  {
    Ledger(Book(Configure(0, 1), ALONE, requests, nextId, 1, locked, true), {0}, {}, removed, callers, map[], false)
  }

  lemma RudeSteps()
    ensures Next(NewLedger(Configure(0, 1)), Add(0)) == Crowd(false, 1, [], map[], {})
    ensures Next(Crowd(false, 1, [], map[], {}), Lock) == Crowd(true, 1, [], map[], {})
    ensures Next(Crowd(true, 1, [], map[], {}), Add(0)) == Crowd(true, 2, [Request(1, 0)], map[1 := false], {})
  {
  }

  lemma RudeRemoval()
    ensures Next(Crowd(true, 2, [Request(1, 0)], map[1 := false], {}), Remove(1)) ==
        Crowd(true, 2, [], map[1 := false], {1})
    ensures Next(Crowd(true, 2, [], map[1 := false], {1}), AddCancelled(1, false)).impossible
  {
    var rs := [Request(1, 0)];
    assert rs[0] in rs && rs[1..] == [] && WithoutRequest(rs, 1) == [];
    assert Invalidate(ALONE, 1) == ALONE;
  }

  /** Removing an id that was never returned makes it possible. */
  lemma RudeRemovalReachesImpossible() returns (l4: Ledger)
    ensures Run(NewLedger(Configure(0, 1)), [Add(0), Lock, Add(0), Remove(1)], l4, false)
    ensures Enabled(l4, AddCancelled(1, false)) && Next(l4, AddCancelled(1, false)).impossible
  {
    RudeSteps();
    RudeRemoval();
    hide Next;
    l4 := Crowd(true, 2, [], map[1 := false], {1});
    var es := [Add(0), Lock, Add(0), Remove(1)];
    assert es[1..][1..][1..][1..] == [];
    assert Run(Crowd(true, 2, [Request(1, 0)], map[1 := false], {}), es[1..][1..][1..], l4, false);
    assert Run(Crowd(true, 1, [], map[], {}), es[1..][1..], l4, false);
    assert Run(Crowd(false, 1, [], map[], {}), es[1..], l4, false);
  }

  /** While the manager is locked, no step but unlocking changes the listed keys or their order. */
  lemma ListIsFrozenWhileLocked(l: Ledger, e: Event)
    requires l.book.locked && Enabled(l, e) && !e.UnlockAll?
    ensures Next(l, e).book.locked && Keys(Next(l, e).book.blockers) == Keys(l.book.blockers)
  {
    if e.Remove? { InvalidateMeaning(l.book.blockers, e.id); }
  }

  /** add_blocker throws exactly when its blocker makes the list long enough while the token of an
      earlier such crossing is still there; the blocker is listed all the same. */
  lemma StaleTokenThrows(b: Book, priority: int)
    ensures AddBlocker(b, priority).1.Thrown? <==> !b.locked && b.ready && |b.blockers| + 1 == FirstFit(b.conf)
    ensures AddBlocker(b, priority).1.Thrown? ==> b.nextId in IdsOf(AddBlocker(b, priority).0.blockers)
  {
    FirstFitMeaning(b.conf, |b.blockers|);
    var b' := AddBlocker(b, priority).0;
    if !b.locked { assert b'.blockers[|b.blockers|].key.id == b.nextId; }
  }

  /** Three calls reach it: a blocker joins, leaves, and another joins. */
  lemma StaleTokenIsReachable()
    ensures var b1 := AddBlocker(NewBook(Configure(0, 1)), 0).0; AddBlocker(RemoveBlocker(b1, 0), 0).1.Thrown?
  {
    var b1 := AddBlocker(NewBook(Configure(0, 1)), 0).0;
    assert b1.blockers == [Info(Key(0, 0, 0), true)];
    assert b1.blockers[1..] == [];
  }
}
