/** The pipeline's link registry: links waiting for their pads, and links made, by source pad.
    Everything it promises rests on the matcher being reflexive and symmetric. */
module LinkRegistry {
  import opened Wrappers
  import opened PadMatcher

  datatype Endpoint = SRC | TGT | ANY

  /** A source node and the name of a pad, or of a pad template, on it. */
  type Key = (string, string)

  /** A requested link. The names never change; the pads arrive later. */
  class Link {
    const src: string
    const srcPadName: string
    const tgt: string
    const tgtPadName: string
    var srcPad: Option<nat>
    var tgtPad: Option<nat>

    constructor (src: string, srcPadName: string, srcPad: Option<nat>, tgt: string, tgtPadName: string,
      tgtPad: Option<nat>)
      ensures this.src == src && this.srcPadName == srcPadName && this.srcPad == srcPad
      ensures this.tgt == tgt && this.tgtPadName == tgtPadName && this.tgtPad == tgtPad
    {
      this.src, this.srcPadName, this.srcPad := src, srcPadName, srcPad;
      this.tgt, this.tgtPadName, this.tgtPad := tgt, tgtPadName, tgtPad;
    }

    function KeyOf(): Key { (src, srcPadName) }

    predicate IsReady()
      reads this
    {
      srcPad.Some? && tgtPad.Some?
    }

    /** Setting a pad again is allowed for the same pad only. */
    method SetPad(atSource: bool, pad: nat) returns (ok: bool)
      modifies this
      ensures ok == (old(if atSource then srcPad else tgtPad) in {None, Some(pad)})
      ensures (if atSource then srcPad else tgtPad) == if ok then Some(pad)
          else old(if atSource then srcPad else tgtPad)
      ensures (if atSource then tgtPad else srcPad) == old(if atSource then tgtPad else srcPad)
    {
      if atSource {
        ok := srcPad.None? || srcPad.value == pad;
        if ok { srcPad := Some(pad); }
      } else {
        ok := tgtPad.None? || tgtPad.value == pad;
        if ok { tgtPad := Some(pad); }
      }
    }
  }

  /** What became of the links: those ever stored; of these, those handed out before they had both
      pads, the only ones that are waited for; of these, those that have both pads by now, and of
      these, those that the framework refused to join when last asked; and all those that a failed
      wait has taken from the registry. */
  datatype Past = Past(known: set<Link>, handed: set<Link>, complete: set<Link>, refused: set<Link>, lost: set<Link>)

  /** `asking` are the requests that have passed the "link already exists" check and have not yet
      been stored: the registry's lock is released in between. */
  datatype Reg = Reg(pending: seq<Link>, linked: map<Key, Link>, asking: multiset<Key>, past: Past)

  predicate Hits(l: Link, node: string, pad: string, e: Endpoint)
  {
    (e != TGT && l.src == node && Matches(pad, l.srcPadName)) ||
    (e != SRC && l.tgt == node && Matches(pad, l.tgtPadName))
  }

  /** The first hit, or the length of the list. */
  function FindPending(pending: seq<Link>, node: string, pad: string, e: Endpoint): (i: nat)
    ensures i <= |pending|
    ensures i < |pending| ==> Hits(pending[i], node, pad, e)
    ensures forall j :: 0 <= j < i ==> !Hits(pending[j], node, pad, e)
  {
    if pending == [] || Hits(pending[0], node, pad, e) then 0
    else 1 + FindPending(pending[1..], node, pad, e)
  }

  /** A pad on either end of a pending link finds that link or an earlier one, and a pad on a node that no
      pending link touches finds none. */
  lemma PadsFindTheirLinks(pending: seq<Link>, i: nat, node: string, pad: string)
    requires i < |pending|
    ensures Matches(pad, pending[i].srcPadName) ==>
              FindPending(pending, pending[i].src, pad, SRC) <= i && FindPending(pending, pending[i].src, pad, ANY) <= i
    ensures Matches(pad, pending[i].tgtPadName) ==>
              FindPending(pending, pending[i].tgt, pad, TGT) <= i && FindPending(pending, pending[i].tgt, pad, ANY) <= i
    ensures (forall l :: l in pending ==> l.src != node) ==> FindPending(pending, node, pad, SRC) == |pending|
    ensures (forall l :: l in pending ==> l.tgt != node) ==> FindPending(pending, node, pad, TGT) == |pending|
    ensures (forall l :: l in pending ==> l.src != node && l.tgt != node) ==>
              FindPending(pending, node, pad, ANY) == |pending|
  {
  }

  function EraseAt(s: seq<Link>, i: nat): seq<Link>
  {
    if i < |s| then s[..i] + s[i + 1..] else s
  }

  predicate Taken(r: Reg, key: Key)
  {
    key in r.linked || FindPending(r.pending, key.0, key.1, SRC) < |r.pending|
  }

  function RemoveLink(r: Reg, link: Link, cleanPending: bool): (Reg, bool)
  {
    var i := FindPending(r.pending, link.src, link.srcPadName, SRC);
    if cleanPending && i < |r.pending| then (r.(pending := EraseAt(r.pending, i)), true)
    else if link.KeyOf() in r.linked then (r.(linked := r.linked - {link.KeyOf()}), true)
    else (r, false)
  }

  /** `joined` is what the media framework answers when the two pads are linked. */
  function AddLink(r: Reg, link: Link, cleanPending: bool, joined: bool): (Reg, bool)
  {
    if !joined then (RemoveLink(r, link, false).0, false)
    else
      var i := FindPending(r.pending, link.src, link.srcPadName, SRC);
      (r.(pending := if cleanPending then EraseAt(r.pending, i) else r.pending,
          linked := r.linked[link.KeyOf() := link]), true)
  }

  datatype Event =
    | Ask(key: Key)                                                  // link_async: the check
    | GiveUp(key: Key)                                               // link_async throws after the check
    | StoreReady(link: Link, joined: bool)                           // link_async: both pads known
    | StorePending(link: Link)                                       // link_async: some pad still missing
    | PadAdded(node: string, pad: string, ready: bool, joined: bool) // a pad appears; `ready`: its link then has both
    | AwaitFails(link: Link)                                         // AsyncLink::await gives up on the link
    | AwaitReturns(link: Link)                                       // AsyncLink::await hands out the link

  /** Any number of requests may be between their checks and their stores; each stores a new link. A
      wait that looks at the link, or is told, returns it once it has both pads, joined or not. */
  predicate Enabled(r: Reg, e: Event)
  {
    match e
    case Ask(_) => true
    case GiveUp(key) => key in r.asking
    case StoreReady(link, _) => link.KeyOf() in r.asking && link !in r.past.known
    case StorePending(link) => link.KeyOf() in r.asking && link !in r.past.known
    case PadAdded(_, _, _, _) => true
    case AwaitFails(link) => link in r.past.handed
    case AwaitReturns(link) => link in r.past.handed && link in r.past.complete
  }

  /** The links that a removal takes. */
  function Removed(r: Reg, link: Link, cleanPending: bool): set<Link>
  {
    var i := FindPending(r.pending, link.src, link.srcPadName, SRC);
    if cleanPending && i < |r.pending| then {r.pending[i]}
    else if link.KeyOf() in r.linked then {r.linked[link.KeyOf()]}
    else {}
  }

  function Joined(p: Past, link: Link, joined: bool): Past
  {
    p.(complete := p.complete + {link}, refused := if joined then p.refused - {link} else p.refused + {link})
  }

  function Next(r: Reg, e: Event): Reg
  {
    match e
    case Ask(key) => if Taken(r, key) then r else r.(asking := r.asking + multiset{key})
    case GiveUp(key) => r.(asking := r.asking - multiset{key})
    case StoreReady(link, joined) =>
      AddLink(r, link, false, joined).0.(asking := r.asking - multiset{link.KeyOf()},
                                         past := r.past.(known := r.past.known + {link}))
    case StorePending(link) =>
      r.(pending := r.pending + [link], asking := r.asking - multiset{link.KeyOf()},
         past := Stored(r.past, link))
    case PadAdded(node, pad, ready, joined) =>
      var i := FindPending(r.pending, node, pad, ANY);
      if i < |r.pending| && ready then
        AddLink(r, r.pending[i], true, joined).0.(past := Joined(r.past, r.pending[i], joined))
      else r
    case AwaitFails(link) =>
      RemoveLink(r, link, true).0.(past := r.past.(lost := r.past.lost + Removed(r, link, true)))
    case AwaitReturns(_) => r
  }

  const NO_PAST := Past({}, {}, {}, {}, {})

  const NEW_REG := Reg([], map[], multiset{}, NO_PAST)

  /** Different nodes, or names that match nowhere. */
  predicate Apart(a: Key, b: Key) { a.0 == b.0 ==> !Matches(a.1, b.1) }

  /** Pending links are pairwise apart, made ones are filed under their own source, and no pending
      link's source is a made one's. */
  ghost predicate Tidy(r: Reg) { TidyLists(r.pending, r.linked) }

  ghost predicate TidyLists(pending: seq<Link>, linked: map<Key, Link>)
  {
    && (forall i, j :: 0 <= i < j < |pending| ==> Apart(pending[i].KeyOf(), pending[j].KeyOf()))
    && (forall k :: k in linked ==> linked[k].KeyOf() == k)
    && (forall i :: 0 <= i < |pending| ==> pending[i].KeyOf() !in linked)
  }

  /** Besides, every request in flight could still be stored. */
  ghost predicate Valid(r: Reg) { Tidy(r) && forall k :: k in r.asking ==> !Taken(r, k) }

  /** The requests in flight are pairwise apart; since a name matches itself, none is there twice. */
  predicate AllApart(asking: multiset<Key>)
  {
    forall a :: a in asking ==> forall b :: b in asking - multiset{a} ==> Apart(a, b)
  }

  lemma PendingFindsItself(r: Reg, i: nat)
    requires Valid(r) && i < |r.pending|
    ensures FindPending(r.pending, r.pending[i].src, r.pending[i].srcPadName, SRC) == i
  {
    var l := r.pending[i];
    MatchReflexive(l.srcPadName);
    var j := FindPending(r.pending, l.src, l.srcPadName, SRC);
    if j < i {
      MatchSymmetric(l.srcPadName, r.pending[j].srcPadName);
      assert false;
    }
  }

  lemma NoHitNotTaken(r: Reg, key: Key)
    requires key !in r.linked
    requires forall i :: 0 <= i < |r.pending| ==> !Hits(r.pending[i], key.0, key.1, SRC)
    ensures !Taken(r, key)
  {
    var j := FindPending(r.pending, key.0, key.1, SRC);
    if j < |r.pending| { assert false; }
  }

  lemma EraseKeepsTidy(r: Reg, i: nat)
    requires Tidy(r) && i < |r.pending|
    ensures Tidy(r.(pending := EraseAt(r.pending, i)))
    ensures forall k :: !Taken(r, k) ==> !Taken(r.(pending := EraseAt(r.pending, i)), k)
  {
    var q := r.(pending := EraseAt(r.pending, i));
    forall j | 0 <= j < |q.pending| ensures q.pending[j] == r.pending[if j < i then j else j + 1] {}
    forall k | !Taken(r, k) ensures !Taken(q, k) { NoHitNotTaken(q, k); }
  }

  /** A pad that completes a pending link moves exactly that link to the linked side. */
  lemma AddLinkMovesExactlyOne(r: Reg, i: nat)
    requires Valid(r) && i < |r.pending|
    ensures AddLink(r, r.pending[i], true, true).0 ==
            r.(pending := r.pending[..i] + r.pending[i + 1..], linked := r.linked[r.pending[i].KeyOf() := r.pending[i]])
    ensures Valid(AddLink(r, r.pending[i], true, true).0)
  {
    PendingFindsItself(r, i);
    EraseKeepsTidy(r, i);
    var q := AddLink(r, r.pending[i], true, true).0;
    var l := r.pending[i];
    forall j | 0 <= j < |q.pending| ensures q.pending[j].KeyOf() !in q.linked {
      var k := if j < i then j else j + 1;
      assert q.pending[j] == r.pending[k];
      MatchReflexive(l.srcPadName);
      MatchSymmetric(l.srcPadName, r.pending[k].srcPadName);
    }
    forall key | key in q.asking ensures !Taken(q, key) {
      assert !Hits(l, key.0, key.1, SRC);
      MatchReflexive(key.1);
      assert l.KeyOf() != key;
      NoHitNotTaken(q, key);
    }
  }

  predicate Stores(e: Event) { e.StoreReady? || e.StorePending? }

  /** Storing a link that passed the check, whatever pads appeared since, keeps the links tidy. */
  lemma StoreKeepsTidy(r: Reg, e: Event)
    requires Valid(r) && Stores(e) && e.link.KeyOf() in r.asking
    ensures Tidy(Next(r, e))
  {
    var key := e.link.KeyOf();
    assert !Taken(r, key);
    forall i | 0 <= i < |r.pending|
      ensures Apart(key, r.pending[i].KeyOf()) && Apart(r.pending[i].KeyOf(), key) && r.pending[i].KeyOf() != key
    {
      assert !Hits(r.pending[i], key.0, key.1, SRC);
      MatchSymmetric(key.1, r.pending[i].srcPadName);
      MatchReflexive(key.1);
    }
  }

  /** Storing a pending link leaves the other requests in flight storable exactly if they are apart
      from it. */
  lemma StorePendingKeepsValid(r: Reg, link: Link)
    requires Valid(r) && link.KeyOf() in r.asking
    ensures Valid(Next(r, StorePending(link))) <==>
            forall k :: k in r.asking - multiset{link.KeyOf()} ==> Apart(k, link.KeyOf())
  {
    var q, key := Next(r, StorePending(link)), link.KeyOf();
    StoreKeepsTidy(r, StorePending(link));
    forall k | k in q.asking ensures !Taken(q, k) <==> Apart(k, key) {
      assert !Taken(r, k);
      var n := |r.pending|;
      assert q.pending[n] == link && forall i :: 0 <= i < n ==>
            q.pending[i] == r.pending[i] && !Hits(r.pending[i], k.0, k.1, SRC);
      assert Hits(link, k.0, k.1, SRC) <==> !Apart(k, key);
    }
  }

  /** Storing a link that has both pads takes no more than its own source. */
  lemma StoreReadyKeepsValid(r: Reg, link: Link, joined: bool)
    requires Valid(r) && link.KeyOf() in r.asking && AllApart(r.asking)
    ensures Valid(Next(r, StoreReady(link, joined)))
  {
    var q, key := Next(r, StoreReady(link, joined)), link.KeyOf();
    StoreKeepsTidy(r, StoreReady(link, joined));
    forall k | k in q.asking ensures !Taken(q, k) {
      assert k in r.asking - multiset{key} && Apart(key, k);
      MatchReflexive(key.1);
      assert !Taken(r, k);
      NoHitNotTaken(q, k);
    }
  }

  lemma AskKeepsValid(r: Reg, key: Key)
    requires Valid(r)
    ensures Valid(Next(r, Ask(key))) && (key in r.asking ==> Valid(Next(r, GiveUp(key))))
  {
    var p, q := Next(r, Ask(key)), Next(r, GiveUp(key));
    assert forall k :: Taken(p, k) == Taken(r, k) == Taken(q, k);
  }

  /** A request that passes the check and is given up leaves no trace. */
  lemma GivenUpWithoutTrace(r: Reg, key: Key)
    requires !Taken(r, key)
    ensures Next(r, Ask(key)).asking == r.asking + multiset{key} && Next(Next(r, Ask(key)), GiveUp(key)) == r
  {
    assert r.asking + multiset{key} - multiset{key} == r.asking;
  }

  lemma StorePendingStaysValid(r: Reg, link: Link)
    requires Valid(r) && link.KeyOf() in r.asking && AllApart(r.asking)
    ensures Valid(Next(r, StorePending(link)))
  {
    StorePendingKeepsValid(r, link);
    forall k | k in r.asking - multiset{link.KeyOf()} ensures Apart(k, link.KeyOf()) {
      assert Apart(link.KeyOf(), k);
      MatchSymmetric(link.srcPadName, k.1);
    }
  }

  /** What became of the links does not matter to the registry. */
  lemma PastIsPast(r: Reg, p: Past)
    ensures Valid(r.(past := p)) == Valid(r)
  {
    assert forall k :: Taken(r.(past := p), k) == Taken(r, k);
  }

  lemma StepKeepsValid(r: Reg, e: Event)
    requires Valid(r) && Enabled(r, e) && AllApart(r.asking)
    ensures Valid(Next(r, e))
  {
    hide Valid, AllApart, AddLink, RemoveLink, Taken, Removed, Joined;
    match e
    case Ask(key) => AskKeepsValid(r, key);
    case GiveUp(key) => AskKeepsValid(r, key);
    case StoreReady(link, joined) => StoreReadyKeepsValid(r, link, joined);
    case StorePending(link) => StorePendingStaysValid(r, link);
    case PadAdded(node, pad, ready, joined) =>
      var i := FindPending(r.pending, node, pad, ANY);
      if i < |r.pending| && ready {
        CompletedPad(r, node, pad, joined);
        PastIsPast(AddLink(r, r.pending[i], true, joined).0, Joined(r.past, r.pending[i], joined));
      }
    case AwaitFails(link) =>
      RemovalKeepsValid(r, link);
      PastIsPast(RemoveLink(r, link, true).0, Next(r, e).past);
    case AwaitReturns(_) =>
  }

  /** A pending link's source is no made one's, so a failed join of it removes nothing. */
  lemma FailedJoinLeaves(r: Reg, i: nat)
    requires Tidy(r) && i < |r.pending|
    ensures AddLink(r, r.pending[i], true, false).0 == r
  {
  }

  lemma RemovalKeepsValid(r: Reg, link: Link)
    requires Valid(r)
    ensures Valid(RemoveLink(r, link, true).0)
  {
    var i := FindPending(r.pending, link.src, link.srcPadName, SRC);
    var q := RemoveLink(r, link, true).0;
    if i < |r.pending| {
      EraseKeepsTidy(r, i);
    } else {
      forall k | k in q.asking ensures !Taken(q, k) { NoHitNotTaken(q, k); }
    }
  }

  ghost predicate Run(r: Reg, es: seq<Event>, r': Reg)
    decreases |es|
  {
    if es == [] then r == r' else Enabled(r, es[0]) && Run(Next(r, es[0]), es[1..], r')
  }

  /** A run in which requests that are in flight together are always pairwise apart. */
  ghost predicate ApartRun(r: Reg, es: seq<Event>, r': Reg)
    decreases |es|
  {
    AllApart(r.asking) &&
    if es == [] then r == r' else Enabled(r, es[0]) && ApartRun(Next(r, es[0]), es[1..], r')
  }

  lemma {:induction false} ApartRunKeepsValid(r: Reg, es: seq<Event>, r': Reg)
    requires Valid(r) && ApartRun(r, es, r')
    ensures Valid(r') && AllApart(r'.asking)
    decreases |es|
  {
    hide Valid, AllApart, Next, Enabled;
    if es != [] {
      StepKeepsValid(r, es[0]);
      ApartRunKeepsValid(Next(r, es[0]), es[1..], r');
    }
  }

  /** Over every run in which requests in flight together are pairwise apart: pending links on one
      source node are pairwise non-matching, in either order, and no link is both pending and made. */
  lemma RegistryOverRuns(es: seq<Event>, r: Reg)
    requires ApartRun(NEW_REG, es, r)
    ensures Valid(r)
    ensures forall i, j :: 0 <= i < |r.pending| && 0 <= j < |r.pending| && i != j ==>
              Apart(r.pending[i].KeyOf(), r.pending[j].KeyOf())
    ensures forall i :: 0 <= i < |r.pending| ==> r.pending[i] !in r.linked.Values
  {
    ApartRunKeepsValid(NEW_REG, es, r);
    forall i, j | 0 <= i < |r.pending| && 0 <= j < |r.pending| && i != j
      ensures Apart(r.pending[i].KeyOf(), r.pending[j].KeyOf())
    {
      MatchSymmetric(r.pending[i].srcPadName, r.pending[j].srcPadName);
    }
  }

  predicate Filed(linked: map<Key, Link>, link: Link) { link.KeyOf() in linked && linked[link.KeyOf()] == link }

  predicate Made(r: Reg, link: Link) { Filed(r.linked, link) }

  /** Whether two stores get in each other's way: two waiting links whose names match, or a waiting one
      and a made one with the same name. */
  predicate Clash(e: Event, f: Event)
    requires Stores(e) && Stores(f)
  {
    if e.StorePending? && f.StorePending? then !Apart(e.link.KeyOf(), f.link.KeyOf())
    else (e.StorePending? || f.StorePending?) && (e.StoreReady? ==> e.joined) && (f.StoreReady? ==> f.joined)
         && e.link.KeyOf() == f.link.KeyOf()
  }

  /** And only in those: storing two requests that are in flight together leaves the links tidy exactly
      if they do not clash; and two links with both pads clash in that the second store, joined or
      not, takes the first from the made ones exactly if their names are the same. */
  lemma TwoInFlight(r: Reg, e: Event, f: Event)
    requires Valid(r) && Stores(e) && Stores(f) && e.link != f.link
    requires e.link.KeyOf() in r.asking && f.link.KeyOf() in r.asking - multiset{e.link.KeyOf()}
    ensures var q := Next(Next(r, e), f);
            && (Tidy(q) <==> !Clash(e, f))
            && (e.StoreReady? && e.joined ==>
                  (Made(q, e.link) <==> f.StorePending? || e.link.KeyOf() != f.link.KeyOf()))
  {
    StoreKeepsTidy(r, e);
    StoreKeepsTidy(r, f);
    assert e.link.KeyOf() !in r.linked by { assert !Taken(r, e.link.KeyOf()); }
    StoreLists(r, e);
    StoreLists(r, f);
    StoreLists(Next(r, e), f);
    hide Next, Valid, Taken, TidyLists, Clash;
    TwoStores(r.pending, r.linked, e, f);
  }

  /** What a store does to the lists. */
  function After(lists: (seq<Link>, map<Key, Link>), e: Event): (seq<Link>, map<Key, Link>)
    requires Stores(e)
  {
    if e.StorePending? then (lists.0 + [e.link], lists.1)
    else (lists.0, if e.joined then lists.1[e.link.KeyOf() := e.link] else lists.1 - {e.link.KeyOf()})
  }

  lemma StoreLists(r: Reg, e: Event)
    requires Stores(e)
    ensures (Next(r, e).pending, Next(r, e).linked) == After((r.pending, r.linked), e)
  {
    assert e.link.KeyOf() !in r.linked ==> r.linked - {e.link.KeyOf()} == r.linked;
    hide FindPending, EraseAt;
  }

  lemma TwoStores(pending: seq<Link>, linked: map<Key, Link>, e: Event, f: Event)
    requires Stores(e) && Stores(f) && e.link.KeyOf() !in linked && e.link != f.link
    requires TidyLists(pending, linked)
    requires var (p, m) := After((pending, linked), e); TidyLists(p, m)
    requires var (p, m) := After((pending, linked), f); TidyLists(p, m)
    ensures var (p, m) := After(After((pending, linked), e), f);
            && (TidyLists(p, m) <==> !Clash(e, f))
            && (e.StoreReady? && e.joined ==>
                  (Filed(m, e.link) <==> f.StorePending? || e.link.KeyOf() != f.link.KeyOf()))
  {
    var a := After((pending, linked), e);
    if f.StorePending? {
      WaitsTidily(pending, linked, f.link);
      WaitsTidily(a.0, a.1, f.link);
      ApartFromMore(pending, e.link, f.link);
    } else {
      FilesTidily(pending, linked, f.link);
      FilesTidily(a.0, a.1, f.link);
      NoneNamedMore(pending, e.link, f.link.KeyOf());
    }
    hide TidyLists, Apart;
  }

  predicate ApartFromAll(pending: seq<Link>, m: Link)
  {
    forall i :: 0 <= i < |pending| ==> Apart(pending[i].KeyOf(), m.KeyOf())
  }

  lemma ApartFromMore(pending: seq<Link>, l: Link, m: Link)
    ensures ApartFromAll(pending + [l], m) <==> ApartFromAll(pending, m) && Apart(l.KeyOf(), m.KeyOf())
  {
    var more, n := pending + [l], |pending|;
    assert more[n] == l && forall i :: 0 <= i < n ==> more[i] == pending[i];
  }

  predicate NoneNamed(pending: seq<Link>, k: Key) { forall i :: 0 <= i < |pending| ==> pending[i].KeyOf() != k }

  lemma NoneNamedMore(pending: seq<Link>, l: Link, k: Key)
    ensures NoneNamed(pending + [l], k) <==> NoneNamed(pending, k) && l.KeyOf() != k
  {
    var more, n := pending + [l], |pending|;
    assert more[n] == l && forall i :: 0 <= i < n ==> more[i] == pending[i];
  }

  /** When one more link may wait. */
  lemma WaitsTidily(pending: seq<Link>, linked: map<Key, Link>, m: Link)
    requires TidyLists(pending, linked)
    ensures TidyLists(pending + [m], linked) <==> ApartFromAll(pending, m) && m.KeyOf() !in linked
  {
    var more, n := pending + [m], |pending|;
    assert more[n] == m && forall i :: 0 <= i < n ==> more[i] == pending[i];
  }

  /** When one more link may be filed, or one fewer. */
  lemma FilesTidily(pending: seq<Link>, linked: map<Key, Link>, m: Link)
    requires TidyLists(pending, linked)
    ensures TidyLists(pending, linked[m.KeyOf() := m]) <==> NoneNamed(pending, m.KeyOf())
    ensures TidyLists(pending, linked - {m.KeyOf()})
  {
  }

  function TwoRequests(e: Event, f: Event): seq<Event>
    requires Stores(e) && Stores(f)
  {
    [Ask(e.link.KeyOf()), Ask(f.link.KeyOf()), e, f]
  }

  /** Any two requests can come to be in flight together: both check, and then both store. */
  lemma TwoRequestsMeet(e: Event, f: Event) returns (r: Reg)
    requires Stores(e) && Stores(f) && e.link != f.link
    ensures Run(NEW_REG, TwoRequests(e, f), r) && (Tidy(r) <==> !Clash(e, f))
    ensures e.StoreReady? && e.joined ==> (Made(r, e.link) <==> f.StorePending? || e.link.KeyOf() != f.link.KeyOf())
  {
    hide Next, Tidy, Valid, Clash, Made, Apart;
    var k, k' := e.link.KeyOf(), f.link.KeyOf();
    var r2 := Next(Next(NEW_REG, Ask(k)), Ask(k'));
    TwoAsk(k, k');
    StoreRecords(r2, e);
    TwoInFlight(r2, e, f);
    r := Next(Next(r2, e), f);
    assert Enabled(r2, e) && Enabled(Next(r2, e), f);
    hide Enabled;
    FourSteps(NEW_REG, Ask(k), Ask(k'), e, f);
  }

  lemma FourSteps(r: Reg, a: Event, b: Event, c: Event, d: Event)
    requires Enabled(r, a) && Enabled(Next(r, a), b) && Enabled(Next(Next(r, a), b), c)
    requires Enabled(Next(Next(Next(r, a), b), c), d)
    ensures Run(r, [a, b, c, d], Next(Next(Next(Next(r, a), b), c), d))
  {
    hide Next, Enabled;
    var es, r3 := [a, b, c, d], Next(Next(Next(r, a), b), c);
    assert es[1..] == [b, c, d] && es[1..][1..] == [c, d] && es[1..][1..][1..] == [d];
    assert Run(Next(r3, d), [d][1..], Next(r3, d));
    assert Run(r3, [d], Next(r3, d));
    assert Run(Next(Next(r, a), b), [c, d], Next(r3, d));
    assert Run(Next(r, a), [b, c, d], Next(r3, d));
  }

  lemma TwoAsk(k: Key, k': Key)
    ensures var r := Next(Next(NEW_REG, Ask(k)), Ask(k'));
            Valid(r) && r.asking == multiset{k, k'} && r.past == NO_PAST
  {
  }

  lemma StoreRecords(r: Reg, e: Event)
    requires Stores(e)
    ensures Next(r, e).asking == r.asking - multiset{e.link.KeyOf()}
    ensures Next(r, e).past.known == r.past.known + {e.link}
  {
    hide FindPending, EraseAt, RemoveLink;
  }

  /** Erasing a pending link leaves exactly the others. */
  lemma EraseLeavesOthers(r: Reg, i: nat)
    requires Tidy(r) && i < |r.pending|
    ensures forall l :: l in EraseAt(r.pending, i) <==> l in r.pending && l != r.pending[i]
  {
    var s, t := r.pending, EraseAt(r.pending, i);
    MatchReflexive(s[i].srcPadName);
    hide Matches;
    forall l ensures l in t <==> l in s && l != s[i] {
      if l in s && l != s[i] {
        var m :| 0 <= m < |s| && s[m] == l;
        assert t[if m < i then m else m - 1] == l;
      }
      if l in t {
        var j :| 0 <= j < |t| && t[j] == l;
        assert t[j] == s[if j < i then j else j + 1];
      }
    }
  }

  /** When a failed await erases only its own link: exactly when that link is still pending, or
      nothing pending matches its source name. */
  lemma AwaitFailureErasesOnlyItsOwn(r: Reg, link: Link)
    requires Valid(r)
    ensures (forall l :: l in r.pending && l != link ==> l in Next(r, AwaitFails(link)).pending)
            <==> (link in r.pending || FindPending(r.pending, link.src, link.srcPadName, SRC) == |r.pending|)
  {
    var i := FindPending(r.pending, link.src, link.srcPadName, SRC);
    if link in r.pending {
      var k :| 0 <= k < |r.pending| && r.pending[k] == link;
      PendingFindsItself(r, k);
    }
    if i < |r.pending| { EraseLeavesOthers(r, i); }
    hide Tidy, Matches, EraseAt;
    if link !in r.pending && i < |r.pending| { assert r.pending[i] in r.pending; }
  }

  /** A run in which it erases another: a wait for l is given up, m is requested with a name that
      matches l's, and a second wait for l is given up too. The request for m is lost. */
  lemma AwaitFailureCanEraseAnother(l: Link, m: Link) returns (r: Reg)
    requires l != m && l.src == m.src && Matches(l.srcPadName, m.srcPadName)
    ensures ApartRun(NEW_REG, LosingWaits(l, m), r) && r.pending == [] && r.linked == map[]
  {
    hide Next, AllApart, Matches;
    var r2 := AskedAndStored(l, NO_PAST);
    var r3 := WaitLost(r2, l, l);
    var r5 := AskedAndStored(m, r3.past);
    r := WaitLost(r5, m, l);
    WaitLoses(l, l, NO_PAST);
    WaitLoses(m, l, r3.past);
    OneIsApart(l.KeyOf());
    MoreApart(r5, AwaitFails(l), [], r);
    AskAndStore(m, r3.past, [AwaitFails(l)], r);
    MoreApart(r2, AwaitFails(l), [Ask(m.KeyOf()), StorePending(m), AwaitFails(l)], r);
    AskAndStore(l, NO_PAST, [AwaitFails(l), Ask(m.KeyOf()), StorePending(m), AwaitFails(l)], r);
    assert LosingWaits(l, m) == [Ask(l.KeyOf()), StorePending(l)] +
        [AwaitFails(l), Ask(m.KeyOf()), StorePending(m), AwaitFails(l)];
  }

  lemma MoreApart(r: Reg, e: Event, es: seq<Event>, r': Reg)
    requires AllApart(r.asking) && Enabled(r, e) && (ApartRun(Next(r, e), es, r') || (es == [] && r' == Next(r, e)))
    requires AllApart(r'.asking)
    ensures ApartRun(r, [e] + es, r')
  {
    hide Next, Enabled, AllApart;
    assert ([e] + es)[1..] == es;
  }

  function Stored(p: Past, l: Link): Past { p.(known := p.known + {l}, handed := p.handed + {l}) }

  function AskedAndStored(l: Link, p: Past): Reg { Reg([l], map[], multiset{}, Stored(p, l)) }

  function WaitLost(r: Reg, m: Link, l: Link): Reg
  {
    Reg([], map[], multiset{}, r.past.(lost := r.past.lost + {m}))
  }

  /** A run may begin by asking for and storing a link, in a registry that is empty but for its past. */
  lemma AskAndStore(l: Link, p: Past, es: seq<Event>, r: Reg)
    requires l !in p.known && ApartRun(AskedAndStored(l, p), es, r) && AllApart(r.asking)
    ensures ApartRun(Reg([], map[], multiset{}, p), [Ask(l.KeyOf()), StorePending(l)] + es, r)
  {
    var r0, r1 := Reg([], map[], multiset{}, p), Reg([], map[], multiset{l.KeyOf()}, p);
    AsksAndStores(l, p);
    OneIsApart(l.KeyOf());
    hide Next, AllApart, Stored;
    MoreApart(r1, StorePending(l), es, r);
    MoreApart(r0, Ask(l.KeyOf()), [StorePending(l)] + es, r);
    assert [Ask(l.KeyOf()), StorePending(l)] + es == [Ask(l.KeyOf())] + ([StorePending(l)] + es);
  }

  lemma AsksAndStores(l: Link, p: Past)
    ensures var r1 := Reg([], map[], multiset{l.KeyOf()}, p);
            && Next(Reg([], map[], multiset{}, p), Ask(l.KeyOf())) == r1
            && Next(r1, StorePending(l)) == AskedAndStored(l, p)
  {
    hide Matches;
  }

  /** The only pending link is lost to a failed wait for a link whose name matches its own. */
  lemma WaitLoses(m: Link, l: Link, p: Past)
    requires l.src == m.src && (l == m || Matches(l.srcPadName, m.srcPadName))
    ensures var r := AskedAndStored(m, p); Next(r, AwaitFails(l)) == WaitLost(r, m, l)
  {
    MatchReflexive(l.srcPadName);
    hide Matches;
    assert FindPending([m], l.src, l.srcPadName, SRC) == 0;
    assert EraseAt([m], 0) == [];
  }

  function LosingWaits(l: Link, m: Link): seq<Event>
  {
    [Ask(l.KeyOf()), StorePending(l), AwaitFails(l), Ask(m.KeyOf()), StorePending(m), AwaitFails(l)]
  }

  lemma OneIsApart(k: Key)
    ensures AllApart(multiset{k}) && AllApart(multiset{})
  {
  }

  /** What the handler's last step does to the registry when the link has both pads. */
  lemma CompletedPad(r: Reg, node: string, pad: string, joined: bool)
    requires Valid(r) && FindPending(r.pending, node, pad, ANY) < |r.pending|
    ensures var l := r.pending[FindPending(r.pending, node, pad, ANY)];
            var q := AddLink(r, l, true, joined).0;
            && Valid(q) && Next(r, PadAdded(node, pad, true, joined)) == q.(past := Joined(r.past, l, joined))
            && (joined ==> l !in q.pending && q.linked == r.linked[l.KeyOf() := l]
                           && forall m :: m in q.pending <==> m in r.pending && m != l)
            && (!joined ==> q == r)
  {
    var i := FindPending(r.pending, node, pad, ANY);
    if joined {
      AddLinkMovesExactlyOne(r, i);
      EraseLeavesOthers(r, i);
      assert EraseAt(r.pending, i) == r.pending[..i] + r.pending[i + 1..];
    } else {
      FailedJoinLeaves(r, i);
    }
    hide Valid, Tidy, Matches, AddLink, EraseAt, FindPending;
  }

  // ---- What a wait hands out -----------------------------------------------------------------

  /** What the record says of one link: while it waits it has both pads just if the framework refused
      to join them; a made one was joined and is not lost; and one handed out is waiting, made or lost. */
  predicate Fate(r: Reg, l: Link)
  {
    && (l in r.pending ==> l in r.past.handed && l !in r.past.lost && (l in r.past.complete <==> l in r.past.refused))
    && (Made(r, l) ==> l !in r.past.lost && l !in r.past.refused && (l in r.past.handed ==> l in r.past.complete))
    && (l in r.past.handed ==> l in r.pending || Made(r, l) || l in r.past.lost)
  }

  ghost predicate Recorded(r: Reg)
  {
    && (forall l :: l in r.pending ==> l in r.past.known)
    && (forall k :: k in r.linked ==> r.linked[k] in r.past.known)
    && r.past.lost <= r.past.known
    && r.past.refused <= r.past.complete <= r.past.handed <= r.past.known
    && forall l :: l in r.past.known ==> Fate(r, l)
  }

  lemma StoreKeepsRecord(r: Reg, e: Event)
    requires Valid(r) && Recorded(r) && Enabled(r, e) && Stores(e)
    ensures Recorded(Next(r, e))
  {
    var q, key := Next(r, e), e.link.KeyOf();
    assert key !in r.linked by { assert !Taken(r, key); }
    assert q.linked == if e.StoreReady? && e.joined then r.linked[key := e.link] else r.linked by {
      assert r.linked - {key} == r.linked;
    }
    StoreLists(r, e);
    if e.StorePending? { assert q.pending[|r.pending|] == e.link; }
    assert forall k :: k in r.linked ==> k in q.linked && q.linked[k] == r.linked[k];
    hide Valid, Taken, AddLink, RemoveLink;
    forall l | l in q.past.known ensures Fate(q, l) {
      if l in r.past.known { assert Fate(r, l); }
    }
  }

  lemma PadKeepsRecord(r: Reg, node: string, pad: string, joined: bool)
    requires Valid(r) && Recorded(r) && FindPending(r.pending, node, pad, ANY) < |r.pending|
    ensures Recorded(Next(r, PadAdded(node, pad, true, joined)))
  {
    var m := r.pending[FindPending(r.pending, node, pad, ANY)];
    assert m in r.pending && m.KeyOf() !in r.linked;
    CompletedPad(r, node, pad, joined);
    var q := AddLink(r, m, true, joined).0.(past := Joined(r.past, m, joined));
    hide Valid, AddLink, FindPending, EraseAt, Next;
    forall l | l in q.past.known ensures Fate(q, l) { MovedFate(r, q, m, joined, l); }
  }

  lemma MovedFate(r: Reg, q: Reg, m: Link, joined: bool, l: Link)
    requires Fate(r, l) && m in r.pending && !Made(r, m) && Fate(r, m)
    requires q.past == Joined(r.past, m, joined)
    requires l in q.pending <==> l in r.pending && (joined ==> l != m)
    requires Made(q, l) <==> Made(r, l) || (joined && l == m)
    ensures Fate(q, l)
  {
  }

  /** What a removal that cleans takes from the lists. */
  lemma RemovedFromLists(r: Reg, link: Link)
    requires Valid(r)
    ensures var (q, gone) := (RemoveLink(r, link, true).0, Removed(r, link, true));
            && (forall l :: l in q.pending <==> l in r.pending && l !in gone)
            && (forall k :: k in q.linked <==> k in r.linked && r.linked[k] !in gone)
            && (forall k :: k in q.linked ==> q.linked[k] == r.linked[k])
            && (forall l :: l in gone ==> l in r.pending || Made(r, l))
  {
    var i := FindPending(r.pending, link.src, link.srcPadName, SRC);
    if i < |r.pending| { EraseLeavesOthers(r, i); }
    hide FindPending, EraseAt, Apart;
  }

  lemma WaitKeepsRecord(r: Reg, e: Event)
    requires Valid(r) && Recorded(r) && Enabled(r, e) && e.AwaitFails?
    ensures Recorded(Next(r, e))
  {
    var q := Next(r, e);
    RemovedFromLists(r, e.link);
    hide Valid, Removed, RemoveLink;
    forall l | l in q.past.known ensures Fate(q, l) { assert Fate(r, l); }
  }

  lemma StepKeepsRecord(r: Reg, e: Event)
    requires Valid(r) && Recorded(r) && Enabled(r, e)
    ensures Recorded(Next(r, e))
  {
    if Stores(e) { StoreKeepsRecord(r, e); }
    else if e.AwaitFails? { WaitKeepsRecord(r, e); }
    else if e.PadAdded? {
      hide Recorded;
      if FindPending(r.pending, e.node, e.pad, ANY) < |r.pending| && e.ready {
        PadKeepsRecord(r, e.node, e.pad, e.joined);
      }
    } else {
      hide Valid, Enabled;
      forall l | l in r.past.known ensures Fate(Next(r, e), l) { assert Fate(r, l); }
    }
  }

  lemma {:induction false} ApartRunKeepsRecord(r: Reg, es: seq<Event>, r': Reg)
    requires Valid(r) && Recorded(r) && ApartRun(r, es, r')
    ensures Recorded(r')
    decreases |es|
  {
    hide Valid, AllApart, Next, Enabled, Recorded;
    if es != [] {
      StepKeepsValid(r, es[0]);
      StepKeepsRecord(r, es[0]);
      ApartRunKeepsRecord(Next(r, es[0]), es[1..], r');
    }
  }

  /** Over every such run, when a wait returns its link: the link is a made one exactly if the framework
      joined its pads when last asked and no failed wait has taken it. A link whose join was refused
      still waits in the registry, and a wait hands it out all the same. */
  lemma WaitReturnsAMadeLink(es: seq<Event>, r: Reg, link: Link)
    requires ApartRun(NEW_REG, es, r) && Enabled(r, AwaitReturns(link))
    ensures Made(r, link) <==> link !in r.past.refused && link !in r.past.lost
    ensures link in r.pending <==> link in r.past.refused && link !in r.past.lost
  {
    ApartRunKeepsRecord(NEW_REG, es, r);
    ApartRunKeepsValid(NEW_REG, es, r);
    assert Fate(r, link);
    hide Valid, ApartRun;
  }

  function CompletedAndReturned(l: Link, joined: bool): seq<Event>
  {
    [Ask(l.KeyOf()), StorePending(l), PadAdded(l.src, l.srcPadName, true, joined), AwaitReturns(l)]
  }

  /** Such a run for any link: its pads come, and a wait for it begun after that returns it, joined or
      not. When the framework refused to join the pads, the link was never made. */
  lemma WaitCanReturnAnUnmadeLink(l: Link, joined: bool) returns (r: Reg)
    ensures ApartRun(NEW_REG, CompletedAndReturned(l, joined), r)
    ensures (joined <==> Made(r, l)) && (joined <==> l !in r.pending)
  {
    hide Next, AllApart, Matches, Joined;
    var pad, r2 := PadAdded(l.src, l.srcPadName, true, joined), AskedAndStored(l, NO_PAST);
    r := Completed(l, joined);
    CompletedByPad(l, joined);
    OneIsApart(l.KeyOf());
    MoreApart(r, AwaitReturns(l), [], r);
    MoreApart(r2, pad, [AwaitReturns(l)], r);
    AskAndStore(l, NO_PAST, [pad, AwaitReturns(l)], r);
    assert CompletedAndReturned(l, joined) == [Ask(l.KeyOf()), StorePending(l)] + [pad, AwaitReturns(l)];
  }

  function Completed(l: Link, joined: bool): Reg
  {
    Reg(if joined then [] else [l], if joined then map[l.KeyOf() := l] else map[], multiset{},
        Joined(Stored(NO_PAST, l), l, joined))
  }

  lemma CompletedByPad(l: Link, joined: bool)
    ensures Next(AskedAndStored(l, NO_PAST), PadAdded(l.src, l.srcPadName, true, joined)) == Completed(l, joined)
    ensures var q := Completed(l, joined); Next(q, AwaitReturns(l)) == q && Enabled(q, AwaitReturns(l))
  {
    MatchReflexive(l.srcPadName);
    hide Matches;
    assert FindPending([l], l.src, l.srcPadName, ANY) == 0 && FindPending([l], l.src, l.srcPadName, SRC) == 0;
    assert EraseAt([l], 0) == [];
  }

  /** Cleaning up a pending link takes that very link. */
  lemma CleaningTakesThePending(r: Reg, link: Link)
    requires Valid(r) && link in r.pending
    ensures var (q, removed) := RemoveLink(r, link, true);
            removed && |q.pending| + 1 == |r.pending| && link !in q.pending && q.linked == r.linked
  {
    var k :| 0 <= k < |r.pending| && r.pending[k] == link;
    PendingFindsItself(r, k);
    EraseLeavesOthers(r, k);
    hide Valid, FindPending;
  }

  /** A removal that finds nothing to clean takes the made link of that source, if there is one. */
  lemma OtherwiseTheMadeOne(r: Reg, link: Link, cleanPending: bool)
    requires cleanPending ==> FindPending(r.pending, link.src, link.srcPadName, SRC) == |r.pending|
    ensures RemoveLink(r, link, cleanPending) ==
            (r.(linked := r.linked - {link.KeyOf()}), link.KeyOf() in r.linked)
    ensures |r.linked| == |r.linked - {link.KeyOf()}| + if link.KeyOf() in r.linked then 1 else 0
  {
    var m := r.linked - {link.KeyOf()};
    if link.KeyOf() in r.linked {
      assert r.linked.Keys == m.Keys + {link.KeyOf()};
      assert |r.linked| == |r.linked.Keys| && |m| == |m.Keys|;
    } else {
      assert m == r.linked;
    }
  }

  /** A removal takes one link or none: of a pending link asked to be cleaned, that very link; of a
      made one, that one; and it reports whether it took any. */
  lemma RemovalTakesOneOrNone(r: Reg, link: Link, cleanPending: bool)
    requires Valid(r)
    ensures var (q, removed) := RemoveLink(r, link, cleanPending);
            && |q.pending| + |q.linked| + (if removed then 1 else 0) == |r.pending| + |r.linked|
            && (link in r.pending && cleanPending ==> removed && link !in q.pending && q.linked == r.linked)
            && (link.KeyOf() in r.linked && !cleanPending ==>
                  removed && q.pending == r.pending && q.linked == r.linked - {link.KeyOf()})
            && (link in r.pending && !cleanPending ==> !removed && q == r)
  {
    if cleanPending && FindPending(r.pending, link.src, link.srcPadName, SRC) < |r.pending| {
      if link in r.pending { CleaningTakesThePending(r, link); }
    } else {
      OtherwiseTheMadeOne(r, link, cleanPending);
      if link in r.pending { PendingIsNotMade(r, link); }
    }
    hide Valid, FindPending, Matches;
  }

  lemma PendingIsNotMade(r: Reg, link: Link)
    requires Valid(r) && link in r.pending
    ensures link.KeyOf() !in r.linked && r.linked - {link.KeyOf()} == r.linked
    ensures FindPending(r.pending, link.src, link.srcPadName, SRC) < |r.pending|
  {
    var k :| 0 <= k < |r.pending| && r.pending[k] == link;
    PendingFindsItself(r, k);
  }

  datatype PadOutcome = NoLink | Thrown | StillWaiting | Tried(joined: bool)

  class Registry {
    var pending: seq<Link>
    var linked: map<Key, Link>
    ghost var asking: multiset<Key>
    ghost var past: Past

    ghost function View(): Reg
      reads this
    {
      Reg(pending, linked, asking, past)
    }

    constructor ()
      ensures View() == NEW_REG && Valid(View())
    {
      pending, linked, asking, past := [], map[], multiset{}, NO_PAST;
    }

    method Check(key: Key) returns (free: bool)
      modifies this`asking
      ensures free == !Taken(old(View()), key)
      ensures View() == Next(old(View()), Ask(key))
    {
      free := key !in linked && FindPending(pending, key.0, key.1, SRC) == |pending|;
      if free { asking := asking + multiset{key}; }
    }

    method Remove(link: Link, cleanPending: bool) returns (removed: bool)
      modifies this`pending, this`linked
      ensures (View(), removed) == RemoveLink(old(View()), link, cleanPending)
      ensures !cleanPending ==> pending == old(pending)
    {
      if cleanPending {
        var i := FindPending(pending, link.src, link.srcPadName, SRC);
        if i < |pending| {
          pending := pending[..i] + pending[i + 1..];
          return true;
        }
      }
      if link.KeyOf() !in linked { return false; }
      linked := linked - {link.KeyOf()};
      return true;
    }

    method Add(link: Link, cleanPending: bool, joined: bool) returns (added: bool)
      requires link.IsReady()
      modifies this`pending, this`linked
      ensures (View(), added) == AddLink(old(View()), link, cleanPending, joined)
      ensures added == joined
      ensures !cleanPending ==> pending == old(pending)
    {
      if !joined {
        var _ := Remove(link, false);
        return false;
      }
      if cleanPending {
        var i := FindPending(pending, link.src, link.srcPadName, SRC);
        if i < |pending| {
          pending := pending[..i] + pending[i + 1..];
        }
      }
      linked := linked[link.KeyOf() := link];
      return true;
    }

    /** The record agrees with the links' pads. */
    ghost predicate PadsSeen()
      reads this, past.handed
    {
      (forall l :: l in pending ==> l in past.handed) &&
      forall l :: l in past.handed ==> (l in past.complete <==> l.IsReady())
    }

    /** The end of link_async, for a new link that passed the check. */
    method Store(link: Link, joined: bool) returns (ok: bool)
      requires link.KeyOf() in asking && link !in past.known && past.complete <= past.handed <= past.known
      modifies this
      ensures View() == Next(old(View()), if link.IsReady() then StoreReady(link, joined) else StorePending(link))
      ensures ok <==> joined || !link.IsReady()
      ensures ok ==> link in pending || Made(View(), link)
      ensures old(PadsSeen()) ==> PadsSeen()
    {
      ghost var before := View();
      ok := true;
      hide FindPending, EraseAt, RemoveLink, Hits;
      if link.IsReady() {
        ok := Add(link, false, joined);
        assert ok ==> Made(View(), link);
        hide AddLink;
        past := past.(known := past.known + {link});
        asking := asking - multiset{link.KeyOf()};
        assert View() == Next(before, StoreReady(link, joined));
      } else {
        pending := pending + [link];
        past := Stored(past, link);
        assert pending[|pending| - 1] == link;
        asking := asking - multiset{link.KeyOf()};
        assert View() == Next(before, StorePending(link));
      }
    }

    /** The link part of the pad-added handler. */
    method OnPadAdded(node: string, padName: string, pad: nat, joined: bool) returns (out: PadOutcome)
      requires Valid(View())
      modifies this, set l | l in pending
      ensures Valid(View())
      ensures View() == Next(old(View()), PadAdded(node, padName, out.Tried?, joined))
      ensures out.NoLink? <==> FindPending(old(pending), node, padName, ANY) == |old(pending)|
      ensures out.Tried? ==> out.joined == joined
      ensures out.Tried? && joined ==>
                var l := old(pending)[FindPending(old(pending), node, padName, ANY)];
                l !in pending && linked == old(linked)[l.KeyOf() := l] && l.IsReady() &&
                forall m :: m in pending <==> m in old(pending) && m != l
      ensures out != Tried(true) ==> pending == old(pending) && linked == old(linked)
      ensures !out.Tried? ==> View() == old(View())
      ensures out.StillWaiting? ==> !old(pending)[FindPending(old(pending), node, padName, ANY)].IsReady()
      ensures !out.NoLink? ==>
                var l := old(pending)[FindPending(old(pending), node, padName, ANY)];
                var was, other := if node == l.src then old(l.srcPad) else old(l.tgtPad),
                    if node == l.src then old(l.tgtPad) else old(l.srcPad);
                && (forall m :: m in old(pending) && m != l ==> m.srcPad == old(m.srcPad) && m.tgtPad == old(m.tgtPad))
                && (if node == l.src then l.srcPad else l.tgtPad) == (if was.Some? then was else Some(pad))
                && (if node == l.src then l.tgtPad else l.srcPad) == other
                && (out.Thrown? <==> was.Some? && was.value != pad)
                && (out.StillWaiting? <==> !out.Thrown? && other.None?)
      ensures old(PadsSeen()) ==> PadsSeen()
    {
      var i := FindPending(pending, node, padName, ANY);
      if i == |pending| { return NoLink; }
      var link := pending[i];
      ghost var before := View();
      var ok := link.SetPad(node == link.src, pad);
      if !ok { return Thrown; }
      if !link.IsReady() { return StillWaiting; }
      assert View() == before;
      var added := Complete(link, node, padName, joined);
      return Tried(added);
    }

    /** Joining the link found for a new pad, once it has both. */
    method Complete(link: Link, ghost node: string, ghost pad: string, joined: bool) returns (added: bool)
      requires Valid(View()) && link.IsReady()
      requires FindPending(pending, node, pad, ANY) < |pending| && pending[FindPending(pending, node, pad, ANY)] == link
      modifies this
      ensures Valid(View()) && View() == Next(old(View()), PadAdded(node, pad, true, joined))
      ensures added == joined && past == Joined(old(past), link, joined)
      ensures joined ==> linked == old(linked)[link.KeyOf() := link] &&
                         forall m :: m in pending <==> m in old(pending) && m != link
      ensures !joined ==> pending == old(pending) && linked == old(linked)
    {
      ghost var before := View();
      CompletedPad(before, node, pad, joined);
      added := Add(link, true, joined);
      past := Joined(past, link, joined);
      PastIsPast(AddLink(before, link, true, joined).0, past);
      hide Valid, Matches, FindPending, EraseAt;
    }

    /** AsyncLink::await for a link handed out unfinished: `closed` if its wait ends before it can look
        at the link, `told` what it is told later if it finds a pad missing. It is told of joined
        pads only once there are both. */
    method Await(link: Link, closed: bool, told: Option<bool>) returns (got: bool)
      requires link in past.handed && PadsSeen() && (told == Some(true) ==> link in past.complete)
      modifies this
      ensures got ==> Enabled(old(View()), AwaitReturns(link))
      ensures !closed && link.IsReady() ==> got
      ensures View() == Next(old(View()), if got then AwaitReturns(link) else AwaitFails(link))
      ensures !got ==> forall l :: l in old(pending) && l !in pending ==> Hits(l, link.src, link.srcPadName, SRC)
    {
      got := !closed && (link.IsReady() || told == Some(true));
      if !got {
        ghost var gone := Removed(View(), link, true);
        var _ := Remove(link, true);
        past := past.(lost := past.lost + gone);
      }
    }
  }
}
