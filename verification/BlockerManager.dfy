/** The blocker manager's own data and its critical sections: the batch size, joining, leaving,
    locking and unlocking. */
module BlockerManager {
  const INT32_MAX: nat := 0x7fff_ffff

  datatype Configure = Configure(targetBatch: int, minBatch: nat)

  predicate Validated(c: Configure)
  {
    1 <= c.minBatch <= INT32_MAX && (c.targetBatch > 0 ==> c.targetBatch >= c.minBatch)
  }

  function Max(a: int, b: int): int { if a >= b then a else b }

  function CalcBatch(c: Configure, size: nat): nat
  {
    if c.targetBatch > 0 then
      if c.targetBatch > size then Max(c.minBatch, size) else c.targetBatch
    else if c.targetBatch < 0 then Max(c.targetBatch + size, c.minBatch)
    else c.minBatch
  }

  /** How many a configuration wants: so many, or all but so many, or no more than it must. */
  function Wanted(c: Configure, size: nat): int
  {
    if c.targetBatch == 0 then 0
    else if c.targetBatch < 0 then size + c.targetBatch
    else if size < c.targetBatch then size else c.targetBatch
  }

  /** For every validated configuration: a batch is what is wanted, but at least the minimum; it
      grows with the number of blockers, and fits them exactly when they are at least the minimum. */
  lemma BatchArithmetic(c: Configure, size: nat, larger: nat)
    requires Validated(c) && size <= larger
    ensures CalcBatch(c, size) == Max(Wanted(c, size), c.minBatch)
    ensures c.minBatch <= CalcBatch(c, size) <= CalcBatch(c, larger)
    ensures CalcBatch(c, size) <= size <==> c.minBatch <= size
    ensures CalcBatch(c, size) > size && CalcBatch(c, size + 1) <= size + 1 <==> size + 1 == c.minBatch
  {
  }

  /** The least number of blockers that a configuration, validated or not, is content with. */
  function FirstFit(c: Configure): nat
  {
    if 0 < c.targetBatch < c.minBatch then c.targetBatch else c.minBatch
  }

  /** For every configuration: a batch fits the blockers exactly when there are at least as many as
      that; with exactly so many it is all of them; and the crossing that wakes a locker is there. */
  lemma FirstFitMeaning(c: Configure, size: nat)
    ensures CalcBatch(c, size) <= size <==> FirstFit(c) <= size
    ensures CalcBatch(c, FirstFit(c)) == FirstFit(c)
    ensures Crosses(c, size) <==> size + 1 == FirstFit(c)
  {
  }

  /** Unvalidated, a positive target below the minimum gives batches below the minimum. */
  lemma UnvalidatedBatchCanBeTooSmall(c: Configure)
    ensures (forall size: nat :: CalcBatch(c, size) >= c.minBatch)
            <==> (c.targetBatch > 0 ==> c.targetBatch >= c.minBatch)
  {
    if c.targetBatch > 0 && c.targetBatch < c.minBatch {
      assert CalcBatch(c, c.minBatch) < c.minBatch;
    }
  }

  // ---- Order -------------------------------------------------------------------------------------

  /** What the schedule knows of a blocker. */
  datatype Key = Key(id: nat, epoch: nat, priority: int)

  /** Fewer epochs first, then the higher priority, then the older blocker. */
  predicate Before(a: Key, b: Key)
  {
    if a.epoch != b.epoch then a.epoch < b.epoch
    else if a.priority != b.priority then a.priority > b.priority
    else a.id < b.id
  }

  predicate Sorted(s: seq<Key>) { forall i, j :: 0 <= i < j < |s| ==> Before(s[i], s[j]) }

  predicate DistinctIds(s: seq<Key>) { forall i, j :: 0 <= i < j < |s| ==> s[i].id != s[j].id }

  function Insert(k: Key, s: seq<Key>): seq<Key>
  {
    if s == [] || Before(k, s[0]) then [k] + s else [s[0]] + Insert(k, s[1..])
  }

  function Sort(s: seq<Key>): seq<Key>
  {
    if s == [] then [] else Insert(s[0], Sort(s[1..]))
  }

  lemma {:induction false} InsertKeeps(k: Key, s: seq<Key>)
    ensures multiset(Insert(k, s)) == multiset(s) + multiset{k}
    ensures |Insert(k, s)| == |s| + 1
  {
    if s != [] && !Before(k, s[0]) {
      InsertKeeps(k, s[1..]);
      assert s == [s[0]] + s[1..];
    }
  }

  lemma {:induction false} InsertSorted(k: Key, s: seq<Key>)
    requires Sorted(s) && forall i :: 0 <= i < |s| ==> s[i].id != k.id
    ensures Sorted(Insert(k, s))
  {
    if s != [] && !Before(k, s[0]) {
      InsertSorted(k, s[1..]);
      InsertKeeps(k, s[1..]);
      var r := Insert(k, s[1..]);
      forall i | 0 <= i < |r| ensures Before(s[0], r[i]) {
        assert r[i] in multiset(r);
      }
    }
  }

  /** Sorting permutes, and distinct ids make the order strict. */
  lemma {:induction false} SortMeaning(s: seq<Key>)
    requires DistinctIds(s)
    ensures multiset(Sort(s)) == multiset(s) && |Sort(s)| == |s| && Sorted(Sort(s))
    ensures forall k :: k in Sort(s) <==> k in s
  {
    if s != [] {
      assert s == [s[0]] + s[1..];
      SortMeaning(s[1..]);
      InsertKeeps(s[0], Sort(s[1..]));
      forall i | 0 <= i < |Sort(s[1..])| ensures Sort(s[1..])[i].id != s[0].id {
        assert Sort(s[1..])[i] in s[1..];
      }
      InsertSorted(s[0], Sort(s[1..]));
    }
    forall k ensures k in Sort(s) <==> k in s {
      assert k in Sort(s) <==> k in multiset(Sort(s));
      assert k in s <==> k in multiset(s);
    }
  }

  /** What the order is: fewer epochs first; of as many, the higher priority; of the same, the older. */
  lemma SortOrder(s: seq<Key>, i: nat, j: nat)
    requires DistinctIds(s) && i < j < |s|
    ensures |Sort(s)| == |s|
    ensures var a, b := Sort(s)[i], Sort(s)[j];
            && a.epoch <= b.epoch
            && (a.epoch == b.epoch ==> a.priority >= b.priority)
            && (a.epoch == b.epoch && a.priority == b.priority ==> a.id < b.id)
  {
    SortMeaning(s);
    assert Before(Sort(s)[i], Sort(s)[j]);
  }

  lemma SortedIdsDistinct(s: seq<Key>)
    requires DistinctIds(s)
    ensures DistinctIds(Sort(s))
  {
    SortMeaning(s);
    var r := Sort(s);
    forall i, j | 0 <= i < j < |r| ensures r[i].id != r[j].id {
      assert r[i] in s && r[j] in s && Before(r[i], r[j]);
    }
  }

  function OrderIds(order: seq<Key>): set<nat> { set k | k in order :: k.id }

  /** With distinct ids, the ids of a prefix are found in the prefix only. */
  lemma PrefixIds(order: seq<Key>, n: nat)
    requires DistinctIds(order) && n <= |order|
    ensures forall j :: 0 <= j < |order| ==> (order[j].id in OrderIds(order[..n]) <==> j < n)
  {
    forall j | 0 <= j < |order| ensures order[j].id in OrderIds(order[..n]) <==> j < n {
      if order[j].id in OrderIds(order[..n]) {
        var k :| k in order[..n] && k.id == order[j].id;
        var i :| 0 <= i < n && order[..n][i] == k;
        assert order[i].id == order[j].id && i == j;
      }
      if j < n { assert order[..n][j] in order[..n]; }
    }
  }

  // ---- Choosing whom to ask ----------------------------------------------------------------------

  function MaxEpoch(s: seq<Key>): (r: nat)
    ensures forall k :: k in s ==> k.epoch <= r
    ensures s != [] ==> exists k :: k in s && k.epoch == r
  {
    if s == [] then 0 else Max(MaxEpoch(s[..|s| - 1]), s[|s| - 1].epoch)
  }

  /** How many of the keys have the given epoch. */
  function CountEpoch(s: seq<Key>, epoch: nat): nat
  {
    if s == [] then 0 else CountEpoch(s[..|s| - 1], epoch) + if s[|s| - 1].epoch == epoch then 1 else 0
  }

  lemma {:induction false} CountEpochBounds(s: seq<Key>, m: nat, epoch: nat)
    requires m <= |s|
    ensures CountEpoch(s[..m], epoch) <= CountEpoch(s, epoch) <= CountEpoch(s[..m], epoch) + |s| - m
    ensures CountEpoch(s, epoch) <= |s|
  {
    if m < |s| {
      var n := |s| - 1;
      CountEpochBounds(s[..n], m, epoch);
      assert s[..n][..m] == s[..m];
    } else {
      assert s[..m] == s;
      if m > 0 { CountEpochBounds(s[..m - 1], m - 1, epoch); assert s[..m - 1][..m - 1] == s[..m - 1]; }
    }
  }

  /** The loop that makes one request task per chosen blocker: a prefix of the order, which holds
      at most `batch` blockers of the largest epoch and ends only for want of blockers or because
      it holds `batch` of those already. In a sorted order that is everyone with fewer epochs than the
      last, and the first `batch` of the others. */
  method ChooseCount(order: seq<Key>, batch: nat) returns (m: nat)
    ensures m == Chosen(order, batch)
    ensures m <= |order| && CountEpoch(order[..m], MaxEpoch(order)) <= batch
    ensures m < |order| ==> order[m].epoch == MaxEpoch(order) && CountEpoch(order[..m], MaxEpoch(order)) == batch
    ensures Sorted(order) ==> forall low: nat :: LowerAre(order, low) ==> m == low + Min(batch, |order| - low)
  {
    hide MaxEpoch, CountEpoch, Sorted, LowerAre;
    CountsFrom(order);
    SortedChoice(order, batch);
    var maxEpoch := MaxEpoch(order);
    var n := 0;
    ChosenFrom(order, batch, 0);
    m := |order|;
    for i := 0 to |order|
      invariant n == CountEpoch(order[..i], maxEpoch) <= batch
      invariant Chosen(order, batch) >= i
      invariant m == |order|
    {
      CountsNext(order, i, maxEpoch);
      if order[i].epoch == maxEpoch { n := n + 1; }
      ChosenFrom(order, batch, i + 1);
      if n > batch {
        m := i;
        break;
      }
    }
    assert order[..|order|] == order;
    ChosenFrom(order, batch, m);
  }

  /** The number of blockers asked: the longest prefix with at most `batch` of the largest epoch. */
  function Chosen(order: seq<Key>, batch: nat): (m: nat)
    ensures m <= |order|
  {
    Longest(order, batch, |order|)
  }

  function Longest(order: seq<Key>, batch: nat, m: nat): (r: nat)
    requires m <= |order|
    ensures r <= m
    ensures forall k :: r <= k <= m ==> (CountEpoch(order[..k], MaxEpoch(order)) <= batch <==> k == r)
  {
    if m == 0 || CountEpoch(order[..m], MaxEpoch(order)) <= batch then m else Longest(order, batch, m - 1)
  }

  lemma ChosenFrom(order: seq<Key>, batch: nat, i: nat)
    requires i <= |order|
    ensures CountEpoch(order[..i], MaxEpoch(order)) <= batch <==> i <= Chosen(order, batch)
  {
    var c := Chosen(order, batch);
    if i <= c {
      CountEpochBounds(order[..c], i, MaxEpoch(order));
      assert order[..c][..i] == order[..i];
    }
  }

  lemma CountsFrom(order: seq<Key>)
    ensures CountEpoch(order[..0], MaxEpoch(order)) == 0
  {
  }

  lemma CountsNext(order: seq<Key>, i: nat, epoch: nat)
    requires i < |order|
    ensures CountEpoch(order[..i + 1], epoch) ==
            CountEpoch(order[..i], epoch) + if order[i].epoch == epoch then 1 else 0
  {
    assert order[..i + 1][..i] == order[..i];
  }

  function Min(a: nat, b: nat): nat { if a < b then a else b }

  /** Exactly the first `low` have fewer epochs than the last one. */
  predicate LowerAre(order: seq<Key>, low: nat)
  {
    low <= |order| && forall i :: 0 <= i < |order| ==> (order[i].epoch < order[|order| - 1].epoch <==> i < low)
  }

  /** A sorted order has such a `low`. */
  lemma {:induction false} SortedHasLower(order: seq<Key>, m: nat) returns (low: nat)
    requires Sorted(order) && m <= |order|
    requires forall i :: m <= i < |order| ==> order[i].epoch == order[|order| - 1].epoch
    ensures LowerAre(order, low)
  {
    low := m;
    if m > 0 {
      if order[m - 1].epoch == order[|order| - 1].epoch { low := SortedHasLower(order, m - 1); }
      else { assert Before(order[m - 1], order[|order| - 1]); EpochsAscend(order); }
    }
  }

  lemma EpochsAscend(order: seq<Key>)
    requires Sorted(order)
    ensures forall i, j :: 0 <= i <= j < |order| ==> order[i].epoch <= order[j].epoch
  {
    forall i, j | 0 <= i <= j < |order| ensures order[i].epoch <= order[j].epoch {
      if i < j { assert Before(order[i], order[j]); }
    }
  }

  /** Of the first i of a sorted order, those from `low` on have the largest epoch. */
  lemma {:induction false} CountTop(order: seq<Key>, low: nat, i: nat)
    requires Sorted(order) && LowerAre(order, low) && order != [] && i <= |order|
    ensures CountEpoch(order[..i], order[|order| - 1].epoch) == if i < low then 0 else i - low
  {
    EpochsAscend(order);
    if i > 0 {
      CountTop(order, low, i - 1);
      assert order[..i][..i - 1] == order[..i - 1];
    }
  }

  /** In a sorted order are asked: everyone with fewer epochs than the last one, and of those with as
      many as the last one, the first `batch`. */
  lemma LowerAndBatch(order: seq<Key>, batch: nat, low: nat)
    requires Sorted(order) && LowerAre(order, low)
    ensures Chosen(order, batch) == low + Min(batch, |order| - low)
  {
    if order != [] {
      EpochsAscend(order);
      assert MaxEpoch(order) == order[|order| - 1].epoch;
      var m := low + Min(batch, |order| - low);
      CountTop(order, low, m);
      ChosenFrom(order, batch, m);
      if m < |order| {
        CountTop(order, low, m + 1);
        ChosenFrom(order, batch, m + 1);
      }
    }
  }

  /** Such a `low` there is, so that is whom a lock asks. */
  lemma WhoIsAsked(order: seq<Key>, batch: nat) returns (low: nat)
    requires Sorted(order) && order != []
    ensures low < |order| && Chosen(order, batch) == low + Min(batch, |order| - low)
    ensures forall i :: 0 <= i < |order| ==> order[i].epoch <= order[|order| - 1].epoch
    ensures forall i :: 0 <= i < |order| ==> (order[i].epoch < order[|order| - 1].epoch <==> i < low)
  {
    low := SortedHasLower(order, |order|);
    EpochsAscend(order);
    LowerAndBatch(order, batch, low);
  }

  lemma SortedChoice(order: seq<Key>, batch: nat)
    ensures Sorted(order) ==> forall low: nat :: LowerAre(order, low) ==>
              Chosen(order, batch) == low + Min(batch, |order| - low)
  {
    if Sorted(order) {
      forall low: nat | LowerAre(order, low) ensures Chosen(order, batch) == low + Min(batch, |order| - low) {
        LowerAndBatch(order, batch, low);
      }
    }
  }

  /** At least a batch is asked. */
  lemma ChosenCoversBatch(order: seq<Key>, batch: nat)
    requires batch <= |order|
    ensures batch <= Chosen(order, batch)
  {
    CountEpochBounds(order[..batch], 0, MaxEpoch(order));
    ChosenFrom(order, batch, batch);
  }

  // ---- The manager's data and its critical sections --------------------------------------------

  datatype Info = Info(key: Key, valid: bool)

  datatype Request = Request(id: nat, priority: int)

  /** `ready` is the one-slot channel on which a locker waits for enough blockers. */
  datatype Book = Book(
    conf: Configure, blockers: seq<Info>, requests: seq<Request>,
    nextId: nat, nextEpoch: nat, locked: bool, ready: bool)

  function NewBook(c: Configure): Book { Book(c, [], [], 0, 0, false, false) }

  function Keys(blockers: seq<Info>): seq<Key> { seq(|blockers|, i requires 0 <= i < |blockers| => blockers[i].key) }

  predicate Crosses(c: Configure, size: nat)
  {
    CalcBatch(c, size) > size && CalcBatch(c, size + 1) <= size + 1
  }

  datatype Joining = Joined | Thrown | Queued

  /** A blocker joins at once, or queues while the manager is locked. The token for a waiting
      locker must go out: a token already there makes the call throw, with the blocker listed. */
  function AddBlocker(b: Book, priority: int): (Book, Joining)
  {
    if b.locked then
      (b.(requests := b.requests + [Request(b.nextId, priority)], nextId := b.nextId + 1), Queued)
    else
      var b' := b.(blockers := b.blockers + [Info(Key(b.nextId, b.nextEpoch, priority), true)],
                   nextId := b.nextId + 1, nextEpoch := b.nextEpoch + 1);
      if !Crosses(b.conf, |b.blockers|) then (b', Joined)
      else (b'.(ready := true), if b.ready then Thrown else Joined)
  }

  function WithoutRequest(requests: seq<Request>, id: nat): seq<Request>
  {
    if requests == [] then []
    else (if requests[0].id == id then [] else [requests[0]]) + WithoutRequest(requests[1..], id)
  }

  function WithoutBlocker(blockers: seq<Info>, id: nat): seq<Info>
  {
    if blockers == [] then []
    else (if blockers[0].key.id == id then [] else [blockers[0]]) + WithoutBlocker(blockers[1..], id)
  }

  /** Mark the first blocker with the id. */
  function Invalidate(blockers: seq<Info>, id: nat): seq<Info>
  {
    if blockers == [] then []
    else if blockers[0].key.id == id then [blockers[0].(valid := false)] + blockers[1..]
    else [blockers[0]] + Invalidate(blockers[1..], id)
  }

  function RemoveBlocker(b: Book, id: nat): Book
  {
    b.(requests := WithoutRequest(b.requests, id),
       blockers := if b.locked then Invalidate(b.blockers, id) else WithoutBlocker(b.blockers, id))
  }

  /** `asked[i]` says whether blocker i was being blocked: its epoch goes up. */
  function Bump(blockers: seq<Info>, asked: seq<bool>): seq<Info>
    requires |asked| == |blockers|
  {
    seq(|blockers|, i requires 0 <= i < |blockers| =>
      if asked[i] then blockers[i].(key := blockers[i].key.(epoch := blockers[i].key.epoch + 1)) else blockers[i])
  }

  function ValidOnes(blockers: seq<Info>): seq<Info>
  {
    if blockers == [] then []
    else (if blockers[0].valid then [blockers[0]] else []) + ValidOnes(blockers[1..])
  }

  function Admit(requests: seq<Request>, epoch: nat): seq<Info>
  {
    seq(|requests|, i requires 0 <= i < |requests| => Info(Key(requests[i].id, epoch + i, requests[i].priority), true))
  }

  function Unlock(b: Book, asked: seq<bool>): Book
    requires |asked| == |b.blockers|
  {
    if !b.locked then b
    else b.(locked := false, requests := [], nextEpoch := b.nextEpoch + |b.requests|,
            blockers := ValidOnes(Bump(b.blockers, asked)) + Admit(b.requests, b.nextEpoch))
  }
}
