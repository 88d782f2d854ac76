/** The manager as an object: each method is one critical section, or one loop, of the code, and is
    held to the functions on its data in BlockerManager. */
module BlockerManagerClass {
  import B = Blocker
  import M = BlockerManager

  /** The one-slot channel on which a queued caller gets its blocker. */
  class Mailbox {
    var box: seq<B.AsyncBlocker>

    constructor ()
      ensures box == []
    {
      box := [];
    }
  }

  datatype Entry = Entry(blocker: B.AsyncBlocker, epoch: nat, priority: int, valid: bool)

  datatype Queued = Queued(id: nat, priority: int, chan: Mailbox)

  datatype Look = NotEnough | AlreadyLocked | Taken(batch: nat)

  function InfoOf(e: Entry): M.Info { M.Info(M.Key(e.blocker.id, e.epoch, e.priority), e.valid) }

  function Infos(es: seq<Entry>): seq<M.Info> { seq(|es|, i requires 0 <= i < |es| => InfoOf(es[i])) }

  function RequestsOf(qs: seq<Queued>): seq<M.Request>
  {
    seq(|qs|, i requires 0 <= i < |qs| => M.Request(qs[i].id, qs[i].priority))
  }

  ghost function Blocks(es: seq<Entry>): seq<bool>
    reads set e | e in es :: e.blocker
  {
    seq(|es|, i requires 0 <= i < |es| reads set e | e in es :: e.blocker => es[i].blocker.block)
  }

  /** Those whose workers are blocked, in list order. */
  ghost function Locked(es: seq<Entry>): seq<B.AsyncBlocker>
    reads set e | e in es :: e.blocker
  {
    if es == [] then []
    else if es[|es| - 1].blocker.blocked then Locked(es[..|es| - 1]) + [es[|es| - 1].blocker]
        else Locked(es[..|es| - 1])
  }

  /** How many of the blockers' workers are blocked. */
  ghost function CountBlocked(bs: seq<B.AsyncBlocker>): nat
    reads bs
  {
    if bs == [] then 0 else CountBlocked(bs[..|bs| - 1]) + if bs[|bs| - 1].blocked then 1 else 0
  }

  /** The places of the blocked ones before the j-th. */
  ghost function BlockedPlaces(bs: seq<B.AsyncBlocker>, j: nat): set<nat>
    requires j <= |bs|
    reads bs
  {
    set i | 0 <= i < j && bs[i].blocked
  }

  /** The count is the number of places. */
  lemma {:induction false} CountBlockedMeaning(bs: seq<B.AsyncBlocker>, j: nat)
    requires j <= |bs|
    ensures CountBlocked(bs[..j]) == |BlockedPlaces(bs, j)|
  {
    if j > 0 {
      CountBlockedMeaning(bs, j - 1);
      PlacesNext(bs, j - 1);
      assert bs[..j][..j - 1] == bs[..j - 1];
    }
  }

  lemma PlacesNext(bs: seq<B.AsyncBlocker>, j: nat)
    requires j < |bs|
    ensures |BlockedPlaces(bs, j + 1)| == |BlockedPlaces(bs, j)| + if bs[j].blocked then 1 else 0
  {
    assert BlockedPlaces(bs, j + 1) == BlockedPlaces(bs, j) + if bs[j].blocked then {j} else {};
  }

  lemma CountsArePlaces(bs: seq<B.AsyncBlocker>)
    ensures forall j :: 0 <= j <= |bs| ==> CountBlocked(bs[..j]) == |BlockedPlaces(bs, j)|
  {
    forall j | 0 <= j <= |bs| ensures CountBlocked(bs[..j]) == |BlockedPlaces(bs, j)| { CountBlockedMeaning(bs, j); }
  }

  /** The blockers of the entries. */
  ghost function BlockersOf(es: seq<Entry>): seq<B.AsyncBlocker>
  {
    seq(|es|, i requires 0 <= i < |es| => es[i].blocker)
  }

  /** Each blocked one stands at the place that its blocked predecessors leave it, and no other is there. */
  lemma {:induction false} LockedMeaning(es: seq<Entry>, j: nat)
    requires j <= |es|
    ensures |Locked(es[..j])| == |BlockedPlaces(BlockersOf(es), j)|
    ensures forall i :: 0 <= i < j && es[i].blocker.blocked ==>
              var n := |BlockedPlaces(BlockersOf(es), i)|;
              n < |Locked(es[..j])| && Locked(es[..j])[n] == es[i].blocker
  {
    if j > 0 {
      PlacesNext(BlockersOf(es), j - 1);
      LockedMeaning(es, j - 1);
      hide BlockedPlaces;
      assert es[..j][..j - 1] == es[..j - 1];
      var was := Locked(es[..j - 1]);
      assert Locked(es[..j]) == was + if es[j - 1].blocker.blocked then [es[j - 1].blocker] else [];
      hide Locked;
      assert forall n :: 0 <= n < |was| ==> Locked(es[..j])[n] == was[n];
    }
  }

  lemma InfosJoin(a: seq<Entry>, b: seq<Entry>)
    ensures Infos(a + b) == Infos(a) + Infos(b)
  {
  }

  lemma RequestsJoin(a: seq<Queued>, b: seq<Queued>)
    ensures RequestsOf(a + b) == RequestsOf(a) + RequestsOf(b)
  {
  }

  lemma {:induction false} ValidOnesJoin(a: seq<M.Info>, b: seq<M.Info>)
    ensures M.ValidOnes(a + b) == M.ValidOnes(a) + M.ValidOnes(b)
  {
    if a == [] { assert a + b == b; }
    else {
      assert (a + b)[1..] == a[1..] + b && (a + b)[0] == a[0];
      ValidOnesJoin(a[1..], b);
    }
  }

  lemma {:induction false} WithoutBlockerJoin(a: seq<M.Info>, b: seq<M.Info>, id: nat)
    ensures M.WithoutBlocker(a + b, id) == M.WithoutBlocker(a, id) + M.WithoutBlocker(b, id)
  {
    if a == [] { assert a + b == b; }
    else {
      assert (a + b)[1..] == a[1..] + b;
      WithoutBlockerJoin(a[1..], b, id);
    }
  }

  lemma {:induction false} WithoutRequestJoin(a: seq<M.Request>, b: seq<M.Request>, id: nat)
    ensures M.WithoutRequest(a + b, id) == M.WithoutRequest(a, id) + M.WithoutRequest(b, id)
  {
    if a == [] { assert a + b == b; }
    else {
      assert (a + b)[1..] == a[1..] + b;
      WithoutRequestJoin(a[1..], b, id);
    }
  }

  lemma WithoutRequestStep(was: seq<Queued>, q: Queued, id: nat)
    ensures M.WithoutRequest(RequestsOf(was + [q]), id) ==
            M.WithoutRequest(RequestsOf(was), id) + if q.id == id then [] else RequestsOf([q])
  {
    RequestsJoin(was, [q]);
    WithoutRequestJoin(RequestsOf(was), RequestsOf([q]), id);
    assert RequestsOf([q])[1..] == [];
  }

  /** Marking reaches the first one with the id. */
  lemma {:induction false} InvalidateFirst(s: seq<M.Info>, id: nat, i: nat)
    requires i <= |s| && forall k :: 0 <= k < i ==> s[k].key.id != id
    requires i < |s| ==> s[i].key.id == id
    ensures M.Invalidate(s, id) == if i < |s| then s[i := s[i].(valid := false)] else s
  {
    if 0 < i { InvalidateFirst(s[1..], id, i - 1); }
  }

  /** With distinct ids, taking out the first one with the id takes out all of them. */
  lemma {:induction false} WithoutFirst(rs: seq<M.Request>, id: nat, i: nat)
    requires forall j, k :: 0 <= j < k < |rs| ==> rs[j].id != rs[k].id
    requires i <= |rs| && (forall k :: 0 <= k < i ==> rs[k].id != id) && (i < |rs| ==> rs[i].id == id)
    ensures M.WithoutRequest(rs, id) == if i < |rs| then rs[..i] + rs[i + 1..] else rs
  {
    if i < |rs| && i == 0 {
      WithoutNone(rs[1..], id);
      assert rs[..0] + rs[1..] == rs[1..];
    } else if rs != [] {
      var rest := rs[1..];
      WithoutFirst(rest, id, i - 1);
      assert M.WithoutRequest(rs, id) == [rs[0]] + M.WithoutRequest(rest, id);
      hide M.WithoutRequest;
      if i < |rs| { WithoutLater(rs, i); }
    }
  }

  lemma WithoutLater(rs: seq<M.Request>, i: nat)
    requires 0 < i < |rs|
    ensures [rs[0]] + (rs[1..][..i - 1] + rs[1..][i..]) == rs[..i] + rs[i + 1..]
  {
  }

  lemma {:induction false} WithoutNone(rs: seq<M.Request>, id: nat)
    requires forall k :: 0 <= k < |rs| ==> rs[k].id != id
    ensures M.WithoutRequest(rs, id) == rs
  {
    if rs != [] { WithoutNone(rs[1..], id); }
  }

  /** A queue without its i-th, if there is one. */
  function WithoutAt(qs: seq<Queued>, i: nat): seq<Queued>
  {
    if i < |qs| then qs[..i] + qs[i + 1..] else qs
  }

  lemma EraseFirst(qs: seq<Queued>, id: nat, i: nat)
    requires forall j, k :: 0 <= j < k < |qs| ==> qs[j].id != qs[k].id
    requires i <= |qs| && (forall k :: 0 <= k < i ==> qs[k].id != id) && (i < |qs| ==> qs[i].id == id)
    ensures RequestsOf(WithoutAt(qs, i)) == M.WithoutRequest(RequestsOf(qs), id)
  {
    var rs := RequestsOf(qs);
    WithoutFirst(rs, id, i);
    if i < |qs| {
      RequestsJoin(qs[..i], qs[i + 1..]);
      assert RequestsOf(qs[..i]) == rs[..i];
      assert RequestsOf(qs[i + 1..]) == rs[i + 1..];
    }
  }

  /** Every queued caller has an id and a channel of its own. */
  ghost predicate QueueOk(qs: seq<Queued>, nextId: nat)
    reads set q | q in qs :: q.chan
  {
    && (forall i, j :: 0 <= i < j < |qs| ==> qs[i].chan != qs[j].chan && qs[i].id != qs[j].id)
    && (forall q :: q in qs ==> q.chan.box == [] && q.id < nextId)
  }

  lemma EraseKeepsQueue(qs: seq<Queued>, i: nat, nextId: nat)
    requires QueueOk(qs, nextId) && i <= |qs|
    ensures QueueOk(WithoutAt(qs, i), nextId)
  {
    var rest := WithoutAt(qs, i);
    assert i < |qs| ==> forall j :: 0 <= j < |rest| ==> rest[j] == qs[if j < i then j else j + 1];
  }

  lemma EraseMembers(qs: seq<Queued>, i: nat, nextId: nat)
    requires QueueOk(qs, nextId) && i < |qs|
    ensures forall q :: q in WithoutAt(qs, i) <==> q in qs && q.id != qs[i].id
  {
    var a, b := qs[..i], qs[i + 1..];
    assert qs == a + [qs[i]] + b;
    assert forall q :: q in a ==> q.id != qs[i].id;
    assert forall q :: q in b ==> q.id != qs[i].id;
  }

  lemma AdmitNone(queued: seq<Queued>, epoch: nat)
    ensures Infos([]) == M.Admit(RequestsOf(queued), epoch)[..0] && |M.Admit(RequestsOf(queued), epoch)| == |queued|
  {
  }

  /** The next of the queue becomes the next entry. */
  lemma AdmitOne(queued: seq<Queued>, epoch: nat, admitted: seq<Entry>, e: Entry)
    requires |admitted| < |queued| == |M.Admit(RequestsOf(queued), epoch)|
    requires Infos(admitted) == M.Admit(RequestsOf(queued), epoch)[..|admitted|]
    requires var q := queued[|admitted|];
        e == Entry(e.blocker, epoch + |admitted|, q.priority, true) && e.blocker.id == q.id
    ensures Infos(admitted + [e]) == M.Admit(RequestsOf(queued), epoch)[..|admitted| + 1]
  {
    InfosJoin(admitted, [e]);
  }

  predicate DistinctBlockers(es: seq<Entry>) { forall i, j :: 0 <= i < j < |es| ==> es[i].blocker != es[j].blocker }

  lemma DistinctJoin(a: seq<Entry>, b: seq<Entry>)
    requires DistinctBlockers(a) && DistinctBlockers(b) && forall x, y :: x in a && y in b ==> x.blocker != y.blocker
    ensures DistinctBlockers(a + b)
  {
  }

  /** The joiner's channel holds a new blocker with the joiner's id. */
  ghost predicate Answered(q: Queued, b: B.AsyncBlocker)
    reads q.chan, b
  {
    b.View() == B.NEW_BLOCKER && q.chan.box == [b] && b.id == q.id
  }

  datatype Cancelled = Withdrawn | Given(blocker: B.AsyncBlocker) | Impossible

  class AsyncBlockerManager {
    const conf: M.Configure
    var blockers: seq<Entry>
    var requests: seq<Queued>
    var nextId: nat
    var nextEpoch: nat
    var locked: bool
    var ready: bool

    function View(): M.Book
      reads this
    {
      M.Book(conf, Infos(blockers), RequestsOf(requests), nextId, nextEpoch, locked, ready)
    }

    /** No blocker is listed twice, and every queued caller has an id and a channel of its own. */
    ghost predicate Valid()
      reads this, set q | q in requests :: q.chan
    {
      && DistinctBlockers(blockers)
      && QueueOk(requests, nextId)
    }

    constructor (conf: M.Configure)
      ensures Valid() && View() == M.NewBook(conf)
    {
      this.conf := conf;
      blockers, requests, nextId, nextEpoch, locked, ready := [], [], 0, 0, false, false;
    }

    /** The first critical section of add_blocker: a blocker at once, or a channel to wait on. */
    method AddBlocker(priority: int) returns (now: seq<B.AsyncBlocker>, later: seq<Mailbox>, thrown: bool)
      requires Valid()
      modifies this
      ensures Valid()
      ensures View() == M.AddBlocker(old(View()), priority).0
      ensures thrown <==> M.AddBlocker(old(View()), priority).1.Thrown?
      ensures var n := |old(blockers)|;
              var enoughNow := !old(locked) && M.CalcBatch(conf, n) > n && M.CalcBatch(conf, n + 1) <= n + 1;
              (thrown <==> enoughNow && old(ready)) && (ready <==> enoughNow || old(ready))
      ensures locked == old(locked) && nextId == old(nextId) + 1
      ensures nextEpoch == old(nextEpoch) + if locked then 0 else 1
      ensures if old(locked) then
                && now == [] && |later| == 1 && fresh(later[0]) && blockers == old(blockers)
                && requests == old(requests) + [Queued(old(nextId), priority, later[0])]
              else
                && later == [] && |now| == 1 && fresh(now[0]) && now[0].View() == B.NEW_BLOCKER &&
                    requests == old(requests)
                && now[0].id == old(nextId) && blockers == old(blockers) +
                    [Entry(now[0], old(nextEpoch), priority, true)]
    {
      now, later, thrown := [], [], false;
      var notEnough := M.CalcBatch(conf, |blockers|) > |blockers|;
      if !locked {
        var b := new B.AsyncBlocker(nextId);
        var added := Entry(b, nextEpoch, priority, true);
        InfosJoin(blockers, [added]);
        blockers := blockers + [added];
        nextId, nextEpoch, now := nextId + 1, nextEpoch + 1, [b];
        if notEnough && M.CalcBatch(conf, |blockers|) <= |blockers| {
          thrown := ready;
          ready := true;
        }
      } else {
        var chan := new Mailbox();
        requests := requests + [Queued(nextId, priority, chan)];
        nextId, later := nextId + 1, [chan];
      }
    }

    method RemoveBlocker(id: nat)
      requires Valid()
      modifies this`requests, this`blockers
      ensures Valid() && View() == M.RemoveBlocker(old(View()), id)
      ensures forall q :: q in requests <==> q in old(requests) && q.id != id
      ensures !locked ==> forall e :: e in blockers <==> e in old(blockers) && e.blocker.id != id
      ensures locked ==> |blockers| == |old(blockers)| && forall i :: 0 <= i < |blockers| ==>
                var was := old(blockers)[i];
                && (was.blocker.id != id ==> blockers[i] == was)
                && (was.blocker.id == id && (forall k :: 0 <= k < i ==> old(blockers)[k].blocker.id != id) ==>
                      blockers[i] == was.(valid := false))
    {
      hide M.WithoutRequest, M.WithoutBlocker, M.Invalidate, RequestsOf, Infos, QueueOk;
      EraseRequests(id);
      if locked { InvalidateBlocker(id); } else { EraseBlockers(id); }
    }

    /** Marks the first listed blocker with the id, if there is one. */
    method InvalidateBlocker(id: nat)
      requires Valid()
      modifies this`blockers
      ensures Valid() && Infos(blockers) == M.Invalidate(Infos(old(blockers)), id)
      ensures |blockers| == |old(blockers)| && forall i :: 0 <= i < |blockers| ==>
                var was := old(blockers)[i];
                && (was.blocker.id != id ==> blockers[i] == was)
                && (was.blocker.id == id && (forall k :: 0 <= k < i ==> old(blockers)[k].blocker.id != id) ==>
                      blockers[i] == was.(valid := false))
    {
      var i := 0;
      while i < |blockers| && blockers[i].blocker.id != id
        invariant 0 <= i <= |blockers| && forall k :: 0 <= k < i ==> blockers[k].blocker.id != id
      {
        i := i + 1;
      }
      InvalidateFirst(Infos(blockers), id, i);
      hide M.Invalidate, QueueOk;
      if i < |blockers| { blockers := blockers[i := blockers[i].(valid := false)]; }
    }

    /** The second critical section of add_blocker, when its wait was ended: withdraw the request,
        or take the blocker that the request became. */
    method CancelAdd(id: nat) returns (r: Cancelled)
      requires Valid()
      modifies this`requests
      ensures Valid() && View() == old(View()).(requests := M.WithoutRequest(RequestsOf(old(requests)), id))
      ensures r.Withdrawn? <==> exists q :: q in old(requests) && q.id == id
      ensures forall q :: q in requests <==> q in old(requests) && q.id != id
      ensures r.Given? ==> r.blocker.id == id && exists e :: e in blockers && e.blocker == r.blocker
      ensures r.Impossible? ==> forall e :: e in blockers ==> e.blocker.id != id
    {
      hide M.WithoutRequest, RequestsOf, Infos;
      var withdrawn := EraseRequest(id);
      if withdrawn { return Withdrawn; }
      var found := Find(id);
      return if found == [] then Impossible else Given(found[0]);
    }

    /** Takes out the first request with the id, the only one there is. */
    method EraseRequest(id: nat) returns (found: bool)
      requires Valid()
      modifies this`requests
      ensures Valid() && RequestsOf(requests) == M.WithoutRequest(RequestsOf(old(requests)), id)
      ensures found <==> exists q :: q in old(requests) && q.id == id
      ensures forall q :: q in requests <==> q in old(requests) && q.id != id
    {
      var i := FindRequest(id);
      EraseFirst(requests, id, i);
      EraseKeepsQueue(requests, i, nextId);
      if i < |requests| { EraseMembers(requests, i, nextId); }
      hide M.WithoutRequest, RequestsOf, QueueOk, WithoutAt;
      found := i < |requests|;
      requests := WithoutAt(requests, i);
    }

    /** The place of the first request with the id, or the length of the queue. */
    method FindRequest(id: nat) returns (i: nat)
      ensures i <= |requests| && (i < |requests| ==> requests[i].id == id)
      ensures forall k :: 0 <= k < i ==> requests[k].id != id
      ensures i < |requests| <==> exists q :: q in requests && q.id == id
    {
      i := 0;
      while i < |requests| && requests[i].id != id
        invariant i <= |requests| && forall k :: 0 <= k < i ==> requests[k].id != id
      {
        i := i + 1;
      }
      assert i < |requests| ==> requests[i] in requests;
    }

    method EraseRequests(id: nat)
      requires Valid()
      modifies this`requests
      ensures Valid() && RequestsOf(requests) == M.WithoutRequest(RequestsOf(old(requests)), id)
      ensures forall q :: q in requests <==> q in old(requests) && q.id != id
    {
      var was, kept: seq<Queued> := requests, [];
      assert RequestsOf(kept) == M.WithoutRequest(RequestsOf(was[..0]), id);
      hide M.WithoutRequest, RequestsOf;
      for i := 0 to |was|
        invariant RequestsOf(kept) == M.WithoutRequest(RequestsOf(was[..i]), id)
        invariant forall q :: q in kept <==> q in was[..i] && q.id != id
        invariant forall j, k :: 0 <= j < k < |kept| ==> kept[j].chan != kept[k].chan && kept[j].id != kept[k].id
      {
        var q := was[i];
        assert was[..i + 1] == was[..i] + [q];
        RequestsJoin(kept, [q]);
        WithoutRequestStep(was[..i], q, id);
        if q.id != id { kept := kept + [q]; }
      }
      assert was[..|was|] == was;
      requests := kept;
    }

    method EraseBlockers(id: nat)
      requires Valid()
      modifies this`blockers
      ensures Valid() && Infos(blockers) == M.WithoutBlocker(Infos(old(blockers)), id)
      ensures forall e :: e in blockers <==> e in old(blockers) && e.blocker.id != id
    {
      var was, kept: seq<Entry> := blockers, [];
      for i := 0 to |was|
        invariant Infos(kept) == M.WithoutBlocker(Infos(was[..i]), id)
        invariant forall e :: e in kept <==> e in was[..i] && e.blocker.id != id
        invariant forall j, k :: 0 <= j < k < |kept| ==> kept[j].blocker != kept[k].blocker
      {
        var e := was[i];
        assert was[..i + 1] == was[..i] + [e];
        InfosJoin(was[..i], [e]);
        InfosJoin(kept, [e]);
        WithoutBlockerJoin(Infos(was[..i]), Infos([e]), id);
        assert Infos([e])[1..] == [];
        if e.blocker.id != id { kept := kept + [e]; }
      }
      assert was[..|was|] == was;
      blockers := kept;
    }

    /** The critical section with which a lock begins. */
    method TryLock() returns (r: Look)
      requires Valid()
      modifies this`locked
      ensures Valid() && r == if M.CalcBatch(conf, |blockers|) > |blockers| then NotEnough
                              else if old(locked) then AlreadyLocked else Taken(M.CalcBatch(conf, |blockers|))
      ensures View() == old(View()).(locked := old(locked) || r.Taken?)
    {
      var batch := M.CalcBatch(conf, |blockers|);
      if batch > |blockers| { return NotEnough; }
      if locked { return AlreadyLocked; }
      locked := true;
      return Taken(batch);
    }

    /** Everyone is asked to go on; the epochs of those who were being blocked go up. */
    method AskAllUnblock()
      requires Valid()
      modifies this`blockers, set e | e in blockers :: e.blocker
      ensures Valid() && Infos(blockers) == M.Bump(Infos(old(blockers)), old(Blocks(blockers)))
      ensures |blockers| == |old(blockers)|
      ensures forall i :: 0 <= i < |blockers| ==>
                var was := old(blockers)[i];
                !was.blocker.block && blockers[i] == was.(epoch := was.epoch + if old(was.blocker.block) then 1 else 0)
      ensures forall i :: 0 <= i < |blockers| ==>
                blockers[i].blocker == old(blockers[i].blocker) &&
                blockers[i].blocker.View() == B.RequestUnblock(old(blockers[i].blocker.View())).0
    {
      ghost var was := blockers;
      var n := |blockers|;
      for i := 0 to n
        invariant |blockers| == n == |was|
        invariant forall k :: 0 <= k < n ==> blockers[k].blocker == was[k].blocker && (i <= k ==> blockers[k] == was[k])
        invariant forall k :: i <= k < n ==> was[k].blocker.View() == old(was[k].blocker.View())
        invariant forall k :: 0 <= k < i ==>
                was[k].blocker.View() == B.RequestUnblock(old(was[k].blocker.View())).0 &&
                blockers[k] == was[k].(epoch := was[k].epoch + if old(was[k].blocker.block) then 1 else 0)
      {
        assert was[i] in was;
        var asked := blockers[i].blocker.AskUnblock();
        if asked { blockers := blockers[i := blockers[i].(epoch := blockers[i].epoch + 1)]; }
      }
    }

    method EraseInvalid()
      requires Valid()
      modifies this`blockers
      ensures Valid() && Infos(blockers) == M.ValidOnes(Infos(old(blockers)))
      ensures forall e :: e in blockers <==> e in old(blockers) && e.valid
    {
      var was, kept: seq<Entry> := blockers, [];
      for i := 0 to |was|
        invariant Infos(kept) == M.ValidOnes(Infos(was[..i]))
        invariant forall e :: e in kept <==> e in was[..i] && e.valid
        invariant forall j, k :: 0 <= j < k < |kept| ==> kept[j].blocker != kept[k].blocker
      {
        var e := was[i];
        assert was[..i + 1] == was[..i] + [e];
        InfosJoin(was[..i], [e]);
        InfosJoin(kept, [e]);
        ValidOnesJoin(Infos(was[..i]), Infos([e]));
        assert Infos([e])[1..] == [];
        assert forall k :: 0 <= k < |kept| ==> kept[k] in kept;
        if e.valid { kept := kept + [e]; }
      }
      assert was[..|was|] == was;
      blockers := kept;
    }

    /** Every queued caller gets a new blocker through its channel, in order. */
    method AdmitQueued()
      requires Valid()
      modifies this`blockers, this`nextEpoch, this`requests, set q | q in requests :: q.chan
      ensures Valid() && requests == [] && nextEpoch == old(nextEpoch) + |old(requests)|
      ensures |blockers| == |old(blockers)| + |old(requests)| && blockers[..|old(blockers)|] == old(blockers)
      ensures Infos(blockers) == Infos(old(blockers)) + M.Admit(RequestsOf(old(requests)), old(nextEpoch))
      ensures forall i :: 0 <= i < |old(requests)| ==>
                var b := blockers[|old(blockers)| + i].blocker;
                fresh(b) && b.View() == B.NEW_BLOCKER && old(requests[i].chan).box == [b] && b.id == old(requests[i].id)
    {
      hide M.Admit, Infos, RequestsOf;
      var was, queued := blockers, requests;
      var admitted: seq<Entry> := [];
      AdmitNone(queued, nextEpoch);
      for i := 0 to |queued|
        invariant |admitted| == i && nextEpoch == old(nextEpoch) + i
        invariant Infos(admitted) == M.Admit(RequestsOf(queued), old(nextEpoch))[..i]
        invariant forall k :: i <= k < |queued| ==> queued[k].chan.box == []
        invariant forall k :: 0 <= k < i ==> fresh(admitted[k].blocker) && Answered(queued[k], admitted[k].blocker)
        invariant DistinctBlockers(admitted)
      {
        assert queued[i] in queued;
        var e := AdmitNext(queued[i], nextEpoch);
        AdmitOne(queued, old(nextEpoch), admitted, e);
        admitted := admitted + [e];
        nextEpoch := nextEpoch + 1;
      }
      InfosJoin(was, admitted);
      DistinctJoin(was, admitted);
      blockers := was + admitted;
      requests := [];
    }

    /** The blocker of a queued joiner, written to its channel. */
    static method AdmitNext(q: Queued, epoch: nat) returns (e: Entry)
      modifies q.chan
      ensures fresh(e.blocker) && Answered(q, e.blocker)
      ensures e == Entry(e.blocker, epoch, q.priority, true)
    {
      var b := new B.AsyncBlocker(q.id);
      q.chan.box := [b];
      e := Entry(b, epoch, q.priority, true);
    }

    method Unlock()
      requires Valid()
      modifies this, set e | e in blockers :: e.blocker, set q | q in requests :: q.chan
      ensures Valid() && View() == M.Unlock(old(View()), old(Blocks(blockers)))
      ensures old(locked) ==> forall i :: 0 <= i < |old(blockers)| ==>
                old(blockers[i].blocker).View() == B.RequestUnblock(old(blockers[i].blocker.View())).0
      ensures old(locked) ==> forall i :: 0 <= i < |old(requests)| ==>
                var chan := old(requests[i].chan);
                && |chan.box| == 1 && fresh(chan.box[0]) && chan.box[0].View() == B.NEW_BLOCKER
                && chan.box[0].id == old(requests[i].id) && exists e :: e in blockers && e.blocker == chan.box[0]
      ensures if old(locked) then !locked && requests == [] && nextEpoch == old(nextEpoch) + |old(requests)|
              else View() == old(View())
    {
      hide M.Bump, M.ValidOnes, M.Admit, Infos, Blocks, B.RequestUnblock;
      if !locked { return; }
      locked := false;
      AskAllUnblock();
      EraseInvalid();
      ghost var kept, queued := blockers, requests;
      AdmitQueued();
      forall i | 0 <= i < |queued|
        ensures exists e :: e in blockers && queued[i].chan.box == [e.blocker] && e.blocker.id == queued[i].id
      {
        assert blockers[|kept| + i] in blockers;
      }
    }

    /** The blocked ones, in list order. */
    method CollectLocked() returns (r: seq<B.AsyncBlocker>)
      ensures r == Locked(blockers)
      ensures |r| == |BlockedPlaces(BlockersOf(blockers), |blockers|)|
      ensures forall i :: 0 <= i < |blockers| && blockers[i].blocker.blocked ==>
                var n := |BlockedPlaces(BlockersOf(blockers), i)|; n < |r| && r[n] == blockers[i].blocker
      ensures forall b :: b in r <==> b.blocked && exists e :: e in blockers && e.blocker == b
    {
      r := [];
      for i := 0 to |blockers|
        invariant r == Locked(blockers[..i])
        invariant forall b :: b in r <==> b.blocked && exists e :: e in blockers[..i] && e.blocker == b
      {
        assert blockers[..i + 1][..i] == blockers[..i];
        var b := blockers[i].blocker;
        assert blockers[..i + 1] == blockers[..i] + [blockers[i]];
        if b.blocked { r := r + [b]; }
      }
      assert blockers[..|blockers|] == blockers;
      LockedMeaning(blockers, |blockers|);
    }

    /** Which listed blocker a worker with the id waits on, if any. */
    method Find(id: nat) returns (r: seq<B.AsyncBlocker>)
      ensures r == [] <==> forall e :: e in blockers ==> e.blocker.id != id
      ensures r != [] ==> |r| == 1 && r[0].id == id && exists e :: e in blockers && e.blocker == r[0]
    {
      for i := 0 to |blockers|
        invariant forall k :: 0 <= k < i ==> blockers[k].blocker.id != id
      {
        if blockers[i].blocker.id == id {
          assert blockers[i] in blockers;
          return [blockers[i].blocker];
        }
      }
      return [];
    }
  }

  /** The loop of a lock that lets go of those beyond the batch: the blocked keep being blocked
      while no more than a batch of them has been passed. */
  method ReleaseBeyond(selects: seq<B.AsyncBlocker>, batch: nat)
    requires forall i, j :: 0 <= i < j < |selects| ==> selects[i] != selects[j]
    modifies set b | b in selects :: b
    ensures forall j :: 0 <= j < |selects| ==>
              selects[j].View() ==
              if old(selects[j].blocked) && old(CountBlocked(selects[..j])) >= batch
                  then B.RequestUnblock(old(selects[j].View())).0
              else old(selects[j].View())
    ensures forall j :: 0 <= j < |selects| ==>
              var within := old(selects[j].blocked) ==> |old(BlockedPlaces(selects, j))| < batch;
              selects[j].block == (old(selects[j].block) && within)
  {
    hide BlockedPlaces;
    CountsArePlaces(selects);
    var n := 0;
    for i := 0 to |selects|
      invariant n == old(CountBlocked(selects[..i]))
      invariant forall j :: i <= j < |selects| ==> selects[j].View() == old(selects[j].View())
      invariant forall j :: 0 <= j < i ==>
              selects[j].View() ==
              if old(selects[j].blocked) && old(CountBlocked(selects[..j])) >= batch
                  then B.RequestUnblock(old(selects[j].View())).0
              else old(selects[j].View())
    {
      var b := selects[i];
      assert b in selects;
      assert selects[..i + 1][..i] == selects[..i];
      assert b.View() == old(selects[i].View());
      if b.blocked {
        n := n + 1;
        if n > batch { var _ := b.AskUnblock(); }
      }
    }
  }
}
