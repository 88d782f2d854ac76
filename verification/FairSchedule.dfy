/** What rounds of locking and unlocking do to the epochs: each round raises those of the first
    batch of the sorted list. No blocker gets ahead, and none starves. */
module FairSchedule {
  import opened BlockerManager

  function BumpKeys(keys: seq<Key>, ids: set<nat>): seq<Key>
  {
    seq(|keys|, i requires 0 <= i < |keys| =>
      if keys[i].id in ids then keys[i].(epoch := keys[i].epoch + 1) else keys[i])
  }

  function Round(keys: seq<Key>, batch: nat): (r: seq<Key>)
    ensures |r| == |keys|
  {
    var order := Sort(keys);
    BumpKeys(keys, OrderIds(order[..Min(batch, |order|)]))
  }

  function Rounds(keys: seq<Key>, batch: nat, n: nat): (r: seq<Key>)
    ensures |r| == |keys|
  {
    if n == 0 then keys else Round(Rounds(keys, batch, n - 1), batch)
  }

  predicate SpreadWithin(keys: seq<Key>, spread: nat)
  {
    forall i, j :: 0 <= i < |keys| && 0 <= j < |keys| ==> keys[i].epoch <= keys[j].epoch + spread
  }

  /** A round changes epochs only, each by at most one. */
  lemma RoundShape(keys: seq<Key>, batch: nat)
    ensures var r := Round(keys, batch);
            |r| == |keys| && forall i :: 0 <= i < |keys| ==>
              r[i].id == keys[i].id && r[i].priority == keys[i].priority &&
                  keys[i].epoch <= r[i].epoch <= keys[i].epoch + 1
  {
  }

  /** A round raises nobody who has more epochs than one it leaves out. */
  lemma RoundFavoursTheLow(keys: seq<Key>, batch: nat, i: nat, j: nat)
    requires DistinctIds(keys) && i < |keys| && j < |keys| && keys[j].epoch < keys[i].epoch
    requires Round(keys, batch)[i].epoch == keys[i].epoch + 1
    ensures Round(keys, batch)[j].epoch == keys[j].epoch + 1
  {
    var order := Sort(keys);
    var n := Min(batch, |order|);
    var a := PlaceInOrder(keys, keys[i]);
    var b := PlaceInOrder(keys, keys[j]);
    SortedIdsDistinct(keys);
    PrefixIds(order, n);
    EpochsFirst(keys, a, b);
    hide Sort, DistinctIds, OrderIds;
    assert order[a].id in OrderIds(order[..n]) <==> a < n;
    assert order[b].id in OrderIds(order[..n]) <==> b < n;
  }

  /** Where a key comes to stand. */
  lemma PlaceInOrder(keys: seq<Key>, k: Key) returns (a: nat)
    requires DistinctIds(keys) && k in keys
    ensures a < |Sort(keys)| && Sort(keys)[a] == k
  {
    SortMeaning(keys);
    a :| 0 <= a < |Sort(keys)| && Sort(keys)[a] == k;
  }

  /** Fewer epochs stand first. */
  lemma EpochsFirst(keys: seq<Key>, a: nat, b: nat)
    requires DistinctIds(keys) && a < |Sort(keys)| && b < |Sort(keys)| && Sort(keys)[b].epoch < Sort(keys)[a].epoch
    ensures b < a
  {
    SortMeaning(keys);
  }

  /** No spread of at least one ever grows. */
  lemma RoundKeepsSpread(keys: seq<Key>, batch: nat, spread: nat)
    requires DistinctIds(keys) && 1 <= spread && SpreadWithin(keys, spread)
    ensures SpreadWithin(Round(keys, batch), spread) && DistinctIds(Round(keys, batch))
  {
    var r := Round(keys, batch);
    RoundShape(keys, batch);
    forall i, j | 0 <= i < |r| && 0 <= j < |r| ensures r[i].epoch <= r[j].epoch + spread {
      if r[i].epoch == keys[i].epoch + 1 && keys[j].epoch < keys[i].epoch { RoundFavoursTheLow(keys, batch, i, j); }
    }
  }

  /** Over any number of rounds the spread is at most the first one, or one: once at most one, it
      stays so. */
  lemma {:induction false} RoundsKeepSpread(keys: seq<Key>, batch: nat, n: nat, spread: nat)
    requires DistinctIds(keys) && SpreadWithin(keys, spread)
    ensures var r := Rounds(keys, batch, n);
            && |r| == |keys| && DistinctIds(r) && SpreadWithin(r, Max(spread, 1))
            && forall i :: 0 <= i < |keys| ==> r[i].id == keys[i].id && keys[i].epoch <= r[i].epoch
  {
    if n > 0 {
      RoundsKeepSpread(keys, batch, n - 1, spread);
      RoundKeepsSpread(Rounds(keys, batch, n - 1), batch, Max(spread, 1));
      RoundShape(Rounds(keys, batch, n - 1), batch);
    }
  }

  // ---- Every round raises a batch ----------------------------------------------------------------

  function CountIn(s: seq<Key>, ids: set<nat>): nat
  {
    if s == [] then 0 else (if s[0].id in ids then 1 else 0) + CountIn(s[1..], ids)
  }

  function EpochSum(s: seq<Key>): nat { if s == [] then 0 else s[0].epoch + EpochSum(s[1..]) }

  lemma {:induction false} InsertCounts(k: Key, s: seq<Key>, ids: set<nat>)
    ensures CountIn(Insert(k, s), ids) == CountIn(s, ids) + if k.id in ids then 1 else 0
  {
    if s != [] && !Before(k, s[0]) {
      InsertCounts(k, s[1..], ids);
      assert ([s[0]] + Insert(k, s[1..]))[1..] == Insert(k, s[1..]);
    } else {
      assert ([k] + s)[1..] == s;
    }
  }

  lemma {:induction false} SortCounts(s: seq<Key>, ids: set<nat>)
    ensures CountIn(Sort(s), ids) == CountIn(s, ids)
  {
    if s != [] {
      SortCounts(s[1..], ids);
      InsertCounts(s[0], Sort(s[1..]), ids);
    }
  }

  lemma {:induction false} PrefixCounts(order: seq<Key>, n: nat, from: nat, ids: set<nat>)
    requires n <= |order| && from <= |order|
    requires forall j :: 0 <= j < |order| ==> (order[j].id in ids <==> j < n)
    ensures CountIn(order[from..], ids) == if from < n then n - from else 0
    decreases |order| - from
  {
    if from < |order| {
      PrefixCounts(order, n, from + 1, ids);
      assert order[from..][1..] == order[from + 1..];
    }
  }

  lemma {:induction false} BumpCounts(s: seq<Key>, ids: set<nat>)
    ensures EpochSum(BumpKeys(s, ids)) == EpochSum(s) + CountIn(s, ids)
  {
    if s != [] {
      BumpCounts(s[1..], ids);
      assert BumpKeys(s, ids)[1..] == BumpKeys(s[1..], ids);
    }
  }

  lemma RoundRaisesABatch(keys: seq<Key>, batch: nat)
    requires DistinctIds(keys) && batch <= |keys|
    ensures EpochSum(Round(keys, batch)) == EpochSum(keys) + batch
  {
    var order := Sort(keys);
    SortMeaning(keys);
    SortedIdsDistinct(keys);
    PrefixIds(order, batch);
    var ids := OrderIds(order[..batch]);
    PrefixCounts(order, batch, 0, ids);
    assert order[0..] == order;
    SortCounts(keys, ids);
    BumpCounts(keys, ids);
  }

  /** Some spread always holds. */
  lemma {:induction false} BoundHolds(keys: seq<Key>)
    ensures forall i :: 0 <= i < |keys| ==> keys[i].epoch <= EpochSum(keys)
  {
    if keys != [] {
      BoundHolds(keys[1..]);
      assert forall i :: 1 <= i < |keys| ==> keys[i] == keys[1..][i - 1];
    }
  }

  lemma {:induction false} RoundsRaiseBatches(keys: seq<Key>, batch: nat, n: nat)
    requires DistinctIds(keys) && batch <= |keys|
    ensures EpochSum(Rounds(keys, batch, n)) == EpochSum(keys) + n * batch
  {
    if n > 0 {
      RoundsRaiseBatches(keys, batch, n - 1);
      BoundHolds(keys);
      RoundsKeepSpread(keys, batch, n - 1, EpochSum(keys));
      RoundRaisesABatch(Rounds(keys, batch, n - 1), batch);
      assert n * batch == (n - 1) * batch + batch;
    }
  }

  // ---- Shares ------------------------------------------------------------------------------------

  /** How often n rounds raised the i-th. */
  function Share(keys: seq<Key>, batch: nat, n: nat, i: nat): int
    requires i < |keys|
  {
    Rounds(keys, batch, n)[i].epoch - keys[i].epoch
  }

  lemma {:induction false} SumWithin(s: seq<Key>, t: seq<Key>, low: int, high: int)
    requires |s| == |t| && forall j :: 0 <= j < |s| ==> low <= t[j].epoch - s[j].epoch <= high
    ensures |s| * low <= EpochSum(t) - EpochSum(s) <= |s| * high
  {
    if s != [] {
      SumWithin(s[1..], t[1..], low, high);
      assert |s| * low == (|s| - 1) * low + low && |s| * high == (|s| - 1) * high + high;
    }
  }

  /** Fairness over any number of rounds: the shares of any two blockers differ by a constant of
      the first spread alone, and so does each share from the even one, `n * batch / |keys|`. */
  lemma SharesAreEven(keys: seq<Key>, batch: nat, n: nat, spread: nat, i: nat, j: nat)
    requires DistinctIds(keys) && SpreadWithin(keys, spread) && batch <= |keys| && i < |keys| && j < |keys|
    ensures var w := spread + Max(spread, 1);
            && Share(keys, batch, n, i) - Share(keys, batch, n, j) <= w
            && |keys| * (Share(keys, batch, n, i) - w) <= n * batch <= |keys| * (Share(keys, batch, n, i) + w)
  {
    RoundsKeepSpread(keys, batch, n, spread);
    RoundsRaiseBatches(keys, batch, n);
    var w := spread + Max(spread, 1);
    var share := Share(keys, batch, n, i);
    var r := Rounds(keys, batch, n);
    forall k | 0 <= k < |keys| ensures share - w <= r[k].epoch - keys[k].epoch <= share + w {}
    SumWithin(keys, r, share - w, share + w);
  }

  /** No blocker starves: once the rounds outnumber a constant multiple of the blockers, everyone
      has had a turn. */
  lemma NobodyStarves(keys: seq<Key>, batch: nat, n: nat, spread: nat, i: nat)
    requires DistinctIds(keys) && SpreadWithin(keys, spread) && 1 <= batch <= |keys| && i < |keys|
    requires n > |keys| * (spread + Max(spread, 1))
    ensures Share(keys, batch, n, i) >= 1
  {
    SharesAreEven(keys, batch, n, spread, i, i);
    TurnsAreShared(|keys|, spread + Max(spread, 1), Share(keys, batch, n, i), n, batch);
  }

  lemma TurnsAreShared(size: nat, w: nat, share: int, n: nat, batch: nat)
    requires n > size * w && 1 <= batch && n * batch <= size * (share + w)
    ensures share >= 1
  {
    assert n * batch >= n;
    assert share <= 0 ==> size * (share + w) <= size * w;
  }

  /** Every listed epoch is within the spread of the one a joiner would start from. */
  predicate NearJoiner(b: Book, spread: nat)
  {
    forall i :: 0 <= i < |b.blockers| ==>
      b.blockers[i].key.epoch <= b.nextEpoch + spread && b.nextEpoch <= b.blockers[i].key.epoch + spread
  }

  /** What joining does to fairness: a joiner starts from the number of earlier joins, so a spread
      goes on to hold exactly if it held and no listed epoch is further than that from the number. */
  lemma JoiningKeepsSpread(b: Book, priority: int, spread: nat)
    requires !b.locked
    ensures SpreadWithin(Keys(AddBlocker(b, priority).0.blockers), spread) <==>
            SpreadWithin(Keys(b.blockers), spread) && NearJoiner(b, spread)
  {
    var keys, x := Keys(b.blockers), Key(b.nextId, b.nextEpoch, priority);
    assert Keys(AddBlocker(b, priority).0.blockers) == keys + [x];
    assert forall i :: 0 <= i < |keys| ==> keys[i] == b.blockers[i].key;
    OneMoreKey(keys, x, spread);
  }

  lemma OneMoreKey(keys: seq<Key>, x: Key, spread: nat)
    ensures SpreadWithin(keys + [x], spread) <==>
            && SpreadWithin(keys, spread)
            && forall i :: 0 <= i < |keys| ==> keys[i].epoch <= x.epoch + spread && x.epoch <= keys[i].epoch + spread
  {
    var all, n := keys + [x], |keys|;
    if SpreadWithin(all, spread) {
      forall i | 0 <= i < n ensures keys[i].epoch <= x.epoch + spread && x.epoch <= keys[i].epoch + spread {
        assert all[i].epoch <= all[n].epoch + spread && all[n].epoch <= all[i].epoch + spread;
      }
      forall i, j | 0 <= i < n && 0 <= j < n ensures keys[i].epoch <= keys[j].epoch + spread {
        assert all[i].epoch <= all[j].epoch + spread;
      }
    }
  }

  lemma {:induction false} LonerRises(n: nat)
    ensures Rounds([Key(0, 0, 0)], 1, n) == [Key(0, n, 0)]
  {
    if n > 0 {
      LonerRises(n - 1);
      var keys := [Key(0, n - 1, 0)];
      assert keys[1..] == [] && Sort(keys) == keys;
      assert keys[0] in keys && keys[..1] == keys;
      assert keys[0].id in OrderIds(keys);
    }
  }
}
