/** A track's two ring caches (RTP and RTCP), merged by a 32-bit arrival number that is rebased
    when it reaches its maximum. The reference is an unbounded log of everything that arrived,
    in which every message has one fate. */
module TrackCache {
  import opened Wrappers
  import opened MachineWords

  type Msg = seq<bv8>

  datatype Kind = RTP | RTCP

  datatype Want = ALL | Only(kind: Kind)

  /** A ring slot: the arrival number and the message. */
  datatype Slot = Slot(seqNo: nat, msg: Msg)

  /** Machine counters of one kind: bytes are 64 bits wide, packets 32. */
  datatype Stat = Stat(dropBytes: nat, dropPackets: nat, receiveBytes: nat, receivePackets: nat)

  const ZERO_STAT := Stat(0, 0, 0, 0)

  datatype Track = Track(cap: nat, rtp: seq<Slot>, rtcp: seq<Slot>, seqNo: nat, rtpStat: Stat, rtcpStat: Stat)
  {
    function Cache(k: Kind): seq<Slot> { if k == RTP then rtp else rtcp }

    function StatOf(k: Kind): Stat { if k == RTP then rtpStat else rtcpStat }

    function WithCache(k: Kind, c: seq<Slot>): Track { if k == RTP then this.(rtp := c) else this.(rtcp := c) }

    function WithStat(k: Kind, s: Stat): Track { if k == RTP then this.(rtpStat := s) else this.(rtcpStat := s) }
  }

  // ---- The operations, as functions of the caches --------------------------------------

  /** The smallest arrival number after dropping every oldest message numbered 0. */
  function MakesureMinSeq(rtp: seq<Slot>, rtcp: seq<Slot>): (r: (seq<Slot>, seq<Slot>, nat))
    decreases |rtp| + |rtcp|
  {
    if rtp == [] && rtcp == [] then (rtp, rtcp, MAX_SEQ)
    else if rtp == [] then
      if rtcp[0].seqNo == 0 then MakesureMinSeq(rtp, rtcp[1..]) else (rtp, rtcp, rtcp[0].seqNo)
    else if rtcp == [] then
      if rtp[0].seqNo == 0 then MakesureMinSeq(rtp[1..], rtcp) else (rtp, rtcp, rtp[0].seqNo)
    else if rtp[0].seqNo < rtcp[0].seqNo then
      if rtp[0].seqNo == 0 then MakesureMinSeq(rtp[1..], rtcp) else (rtp, rtcp, rtp[0].seqNo)
    else
      if rtcp[0].seqNo == 0 then MakesureMinSeq(rtp, rtcp[1..]) else (rtp, rtcp, rtcp[0].seqNo)
  }

  function Shift(c: seq<Slot>, offset: nat): seq<Slot>
  {
    seq(|c|, i requires 0 <= i < |c| => c[i].(seqNo := Sub32(c[i].seqNo, offset)))
  }

  function Rebase(t: Track): Track
  {
    if t.seqNo != MAX_SEQ then t
    else
      var (rtp, rtcp, offset) := MakesureMinSeq(t.rtp, t.rtcp);
      t.(rtp := Shift(rtp, offset), rtcp := Shift(rtcp, offset), seqNo := Sub32(t.seqNo, offset))
  }

  /** Ring push: a full ring loses its oldest slot. */
  function Push(c: seq<Slot>, cap: nat, s: Slot): seq<Slot>
    requires 1 <= cap && |c| <= cap
  {
    (if |c| == cap then c[1..] else c) + [s]
  }

  function Tally(s: Stat, c: seq<Slot>, cap: nat, msg: Msg): Stat
    requires 1 <= cap
  {
    var s' := s.(receiveBytes := (s.receiveBytes + |msg|) % LONG, receivePackets := (s.receivePackets + 1) % WORD);
    if |c| == cap
    then s'.(dropBytes := (s.dropBytes + |c[0].msg|) % LONG, dropPackets := (s.dropPackets + 1) % WORD)
    else s'
  }

  predicate Sized(t: Track) { 1 <= t.cap && |t.rtp| <= t.cap && |t.rtcp| <= t.cap }

  lemma {:induction false} MakesureShrinks(rtp: seq<Slot>, rtcp: seq<Slot>)
    ensures |MakesureMinSeq(rtp, rtcp).0| <= |rtp| && |MakesureMinSeq(rtp, rtcp).1| <= |rtcp|
    decreases |rtp| + |rtcp|
  {
    if rtp != [] { MakesureShrinks(rtp[1..], rtcp); }
    if rtcp != [] { MakesureShrinks(rtp, rtcp[1..]); }
  }

  /** Count the message and push it under the next number. */
  function Store(u: Track, k: Kind, msg: Msg): (u': Track)
    requires Sized(u)
    ensures Sized(u') && u'.cap == u.cap
  {
    var c := u.Cache(k);
    var seqNo := Inc32(u.seqNo);
    u.WithStat(k, Tally(u.StatOf(k), c, u.cap, msg)).WithCache(k, Push(c, u.cap, Slot(seqNo, msg))).(seqNo := seqNo)
  }

  function Arrive(t: Track, k: Kind, msg: Msg): (t': Track)
    requires Sized(t)
    ensures Sized(t') && t'.cap == t.cap
  {
    MakesureShrinks(t.rtp, t.rtcp);
    Store(Rebase(t), k, msg)
  }

  function Pop(t: Track, k: Kind): (Track, Option<Msg>)
    requires t.Cache(k) != []
  {
    (t.WithCache(k, t.Cache(k)[1..]), Some(t.Cache(k)[0].msg))
  }

  function Receive(t: Track, w: Want): (Track, Option<Msg>)
  {
    if w.Only? then
      if t.Cache(w.kind) == [] then (t, None) else Pop(t, w.kind)
    else if t.rtp == [] && t.rtcp == [] then (t, None)
    else if t.rtp == [] then Pop(t, RTCP)
    else if t.rtcp == [] then Pop(t, RTP)
    else if t.rtp[0].seqNo > t.rtcp[0].seqNo then Pop(t, RTCP)
    else Pop(t, RTP)
  }

  function Reset(t: Track, k: Kind): Track { t.WithStat(k, ZERO_STAT) }

  // ---- The reference: an unbounded arrival log -------------------------------------------

  datatype Fate = Held | Delivered | Dropped | Evicted

  datatype Arrival = Arrival(kind: Kind, msg: Msg, fate: Fate)

  predicate Wanted(a: Arrival, w: Want) { a.fate == Held && (w.ALL? || a.kind == w.kind) }

  /** The oldest message still held that is wanted, or the length of the log. */
  function Oldest(log: seq<Arrival>, w: Want): (i: nat)
    ensures i <= |log| && (i < |log| ==> Wanted(log[i], w))
    ensures forall j :: 0 <= j < i ==> !Wanted(log[j], w)
  {
    if log == [] || Wanted(log[0], w) then 0 else 1 + Oldest(log[1..], w)
  }

  function Mark(log: seq<Arrival>, i: nat, f: Fate): seq<Arrival>
  {
    if i < |log| then log[i := log[i].(fate := f)] else log
  }

  /** The messages of a kind that met a fate (or any fate), counted or in bytes. */
  function Total(log: seq<Arrival>, k: Kind, f: Option<Fate>, bytes: bool): nat
  {
    if log == [] then 0
    else
      var a := log[|log| - 1];
      Total(log[..|log| - 1], k, f, bytes) + Weight(a, k, f, bytes)
  }

  function Weight(a: Arrival, k: Kind, f: Option<Fate>, bytes: bool): nat
  {
    if a.kind == k && (f.None? || f.value == a.fate) then (if bytes then |a.msg| else 1) else 0
  }

  function HeldCount(log: seq<Arrival>, k: Kind): nat { Total(log, k, Some(Held), false) }

  function LogArrive(log: seq<Arrival>, cap: nat, k: Kind, msg: Msg): seq<Arrival>
  {
    LogWithRoom(log, cap, k) + [Arrival(k, msg, Held)]
  }

  /** A rebase evicts the message that arrived exactly 2^32 places before the one now arriving,
      if it is still held. */
  predicate Evicts(t: Track, log: seq<Arrival>)
  {
    t.seqNo == MAX_SEQ && |log| >= WORD && log[|log| - WORD].fate == Held
  }

  function LogRebase(t: Track, log: seq<Arrival>): seq<Arrival>
  {
    if Evicts(t, log) then Mark(log, Oldest(log, ALL), Evicted) else log
  }

  // ---- Positions of held messages ---------------------------------------------------------

  function Positions(log: seq<Arrival>, k: Kind): (h: seq<nat>)
    ensures |h| == HeldCount(log, k)
  {
    if log == [] then []
    else
      var n := |log| - 1;
      Positions(log[..n], k) + if Wanted(log[n], Only(k)) then [n] else []
  }

  ghost predicate Lists(log: seq<Arrival>, k: Kind, h: seq<nat>)
  {
    && (forall i :: 0 <= i < |h| ==> h[i] < |log| && Wanted(log[h[i]], Only(k)))
    && (forall i, j :: 0 <= i < j < |h| ==> h[i] < h[j])
  }

  /** The positions are those of held messages of the kind, in order. */
  lemma {:induction false} PositionsMeaning(log: seq<Arrival>, k: Kind)
    ensures Lists(log, k, Positions(log, k))
  {
    if log != [] {
      var n := |log| - 1;
      var g := Positions(log[..n], k);
      PositionsMeaning(log[..n], k);
      assert forall i :: 0 <= i < |g| ==> log[..n][g[i]] == log[g[i]];
    }
  }

  ghost predicate IsFirst(log: seq<Arrival>, k: Kind, i: nat)
  {
    && i <= |log|
    && (i < |log| ==> Wanted(log[i], Only(k)))
    && forall j :: 0 <= j < i ==> !Wanted(log[j], Only(k))
  }

  function First(h: seq<nat>, n: nat): nat { if h == [] then n else h[0] }

  lemma {:induction false} FirstPosition(log: seq<Arrival>, k: Kind)
    ensures Positions(log, k) != [] ==> Positions(log, k)[0] < |log|
    ensures IsFirst(log, k, First(Positions(log, k), |log|))
  {
    if log != [] {
      var n := |log| - 1;
      FirstPosition(log[..n], k);
      var i := First(Positions(log[..n], k), n);
      if Positions(log[..n], k) != [] {
        assert Positions(log, k)[0] == i && log[..n][i] == log[i];
      } else {
        assert Positions(log, k) == if Wanted(log[n], Only(k)) then [n] else [];
      }
      assert forall j :: 0 <= j < n ==> log[..n][j] == log[j];
    }
  }

  lemma OldestIsFirstPosition(log: seq<Arrival>, k: Kind)
    ensures Positions(log, k) == [] ==> Oldest(log, Only(k)) == |log|
    ensures Positions(log, k) != [] ==> Oldest(log, Only(k)) == Positions(log, k)[0] < |log|
  {
    FirstPosition(log, k);
  }

  lemma OldestOfAll(log: seq<Arrival>)
    ensures var a, b := Oldest(log, Only(RTP)), Oldest(log, Only(RTCP));
            Oldest(log, ALL) == if a < b then a else b
    ensures Oldest(log, Only(RTP)) == Oldest(log, Only(RTCP)) ==> Oldest(log, ALL) == |log|
  {
    var a, b, o := Oldest(log, Only(RTP)), Oldest(log, Only(RTCP)), Oldest(log, ALL);
    if o < |log| {
      assert Wanted(log[o], Only(log[o].kind));
    }
    if a < |log| { assert Wanted(log[a], ALL); }
    if b < |log| { assert Wanted(log[b], ALL); }
  }

  lemma PositionsStep(log: seq<Arrival>, k: Kind)
    requires log != []
    ensures var n := |log| - 1;
            Positions(log, k) == if Wanted(log[n], Only(k)) then Positions(log[..n], k) + [n]
                else Positions(log[..n], k)
  {
  }

  lemma MarkPrefix(log: seq<Arrival>, i: nat, f: Fate)
    requires i < |log|
    ensures var n := |log| - 1;
            && |Mark(log, i, f)| == |log|
            && Mark(log, i, f)[..n] == (if i < n then Mark(log[..n], i, f) else log[..n])
            && Mark(log, i, f)[n] == if i == n then log[n].(fate := f) else log[n]
  {
  }

  /** Marking a message of the other kind moves no position. */
  lemma {:induction false} MarkOther(log: seq<Arrival>, i: nat, f: Fate, k: Kind)
    requires i < |log| && log[i].kind != k
    ensures Positions(Mark(log, i, f), k) == Positions(log, k)
    decreases |log|
  {
    hide Positions, Total, Mark, HeldCount;
    MarkPrefix(log, i, f);
    if i < |log| - 1 { MarkOther(log[..|log| - 1], i, f, k); }
    PositionsStep(log, k);
    PositionsStep(Mark(log, i, f), k);
  }

  lemma TailOfLonger(h: seq<nat>, n: nat)
    requires h != []
    ensures (h + [n])[0] == h[0] && (h + [n])[1..] == h[1..] + [n]
  {
  }

  lemma MarkedIsUnwanted(a: Arrival, k: Kind, f: Fate)
    requires f != Held
    ensures !Wanted(a.(fate := f), Only(k)) && (Wanted(a, Only(k)) ==> a.kind == k)
  {
  }

  /** Marking the first message held takes the first position. */
  lemma {:induction false} MarkFirst(log: seq<Arrival>, k: Kind, f: Fate)
    requires f != Held && Positions(log, k) != []
    ensures Positions(log, k)[0] < |log| && log[Positions(log, k)[0]].kind == k
    ensures Positions(Mark(log, Positions(log, k)[0], f), k) == Positions(log, k)[1..]
    decreases |log|
  {
    if log == [] { assert false; }
    MarkedIsUnwanted(log[|log| - 1], k, f);
    hide Positions, Total, Mark, HeldCount, Wanted;
    var n, i := |log| - 1, Positions(log, k)[0];
    var h := Positions(log[..n], k);
    PositionsStep(log, k);
    if h == [] {
      assert i == n;
    } else {
      MarkFirst(log[..n], k, f);
      TailOfLonger(h, n);
    }
    MarkPrefix(log, i, f);
    PositionsStep(Mark(log, i, f), k);
  }

  lemma MarkFirstPosition(log: seq<Arrival>, k: Kind, f: Fate, k': Kind)
    requires f != Held && Positions(log, k) != []
    ensures Positions(log, k)[0] < |log|
    ensures Positions(Mark(log, Positions(log, k)[0], f), k') == if k' == k then Positions(log, k)[1..]
        else Positions(log, k')
  {
    hide Positions, Total, Mark;
    MarkFirst(log, k, f);
    if k' != k { MarkOther(log, Positions(log, k)[0], f, k'); }
  }

  // ---- Simulation ------------------------------------------------------------------------

  /** A ring holds the listed messages, numbered from `base`. */
  ghost predicate Rings(c: seq<Slot>, log: seq<Arrival>, h: seq<nat>, base: nat)
  {
    && |c| == |h|
    && forall i :: 0 <= i < |h| ==> h[i] < |log| && h[i] + 1 == c[i].seqNo + base && c[i].msg == log[h[i]].msg
  }

  /** The caches hold exactly the held messages of the log, in arrival order, and every number
      is the arrival's place in the log less one and the same base. */
  ghost predicate Sim(t: Track, log: seq<Arrival>, base: nat)
  {
    && Sized(t)
    && t.seqNo <= MAX_SEQ && t.seqNo + base == |log|
    && Rings(t.rtp, log, Positions(log, RTP), base)
    && Rings(t.rtcp, log, Positions(log, RTCP), base)
  }

  /** What `MakesureMinSeq` is asked to work on. */
  ghost predicate Ascending(c: seq<Slot>)
  {
    forall i, j :: 0 <= i < j < |c| ==> c[i].seqNo < c[j].seqNo
  }

  /** At most the one message numbered 0 goes, and the offset is the least number left. */
  lemma MakesureMeaning(rtp: seq<Slot>, rtcp: seq<Slot>)
    requires Ascending(rtp) && Ascending(rtcp)
    requires rtp != [] && rtcp != [] ==> rtp[0].seqNo != rtcp[0].seqNo
    ensures var (p, c, offset) := MakesureMinSeq(rtp, rtcp);
            && p == (if rtp != [] && rtp[0].seqNo == 0 then rtp[1..] else rtp)
            && c == (if rtcp != [] && rtcp[0].seqNo == 0 then rtcp[1..] else rtcp)
            && offset > 0
            && (p != [] ==> offset <= p[0].seqNo) && (c != [] ==> offset <= c[0].seqNo)
            && (p == [] && c == [] ==> offset == MAX_SEQ)
            && (p != [] || c != [] ==> (p != [] && offset == p[0].seqNo) || (c != [] && offset == c[0].seqNo))
  {
  }

  lemma RingsAscend(t: Track, log: seq<Arrival>, base: nat)
    requires Sim(t, log, base)
    ensures Ascending(t.rtp) && Ascending(t.rtcp)
    ensures t.rtp != [] && t.rtcp != [] ==> t.rtp[0].seqNo != t.rtcp[0].seqNo
  {
    PositionsMeaning(log, RTP);
    PositionsMeaning(log, RTCP);
  }

  lemma MarkRings(c: seq<Slot>, log: seq<Arrival>, h: seq<nat>, base: nat, i: nat, f: Fate)
    requires Rings(c, log, h, base)
    ensures Rings(c, Mark(log, i, f), h, base)
    ensures c != [] ==> Rings(c[1..], Mark(log, i, f), h[1..], base)
  {
  }

  /** Taking the oldest slot of one ring is taking the oldest held message of that kind. */
  lemma PopSim(t: Track, log: seq<Arrival>, base: nat, k: Kind, f: Fate)
    requires Sim(t, log, base) && t.Cache(k) != [] && f != Held
    ensures var o := Oldest(log, Only(k));
            o < |log| && Pop(t, k).1 == Some(log[o].msg) && Sim(Pop(t, k).0, Mark(log, o, f), base)
  {
    hide Positions, Total;
    OldestIsFirstPosition(log, k);
    MarkFirstPosition(log, k, f, RTP);
    MarkFirstPosition(log, k, f, RTCP);
    var log' := Mark(log, Oldest(log, Only(k)), f);
    MarkRings(t.rtp, log, Positions(log, RTP), base, Oldest(log, Only(k)), f);
    MarkRings(t.rtcp, log, Positions(log, RTCP), base, Oldest(log, Only(k)), f);
    assert Positions(log', RTP) == if k == RTP then Positions(log, RTP)[1..] else Positions(log, RTP);
    assert Positions(log', RTCP) == if k == RTCP then Positions(log, RTCP)[1..] else Positions(log, RTCP);
  }

  /** A read returns the oldest message still held that is wanted, as the log has it. */
  lemma ReceiveIsOldest(t: Track, log: seq<Arrival>, base: nat, w: Want)
    requires Sim(t, log, base)
    ensures var o := Oldest(log, w);
            && Receive(t, w).1 == (if o < |log| then Some(log[o].msg) else None)
            && Sim(Receive(t, w).0, Mark(log, o, Delivered), base)
  {
    hide Positions, Total, Sim, Mark, Oldest;
    OlderFirst(t, log, base);
    OldestOfAll(log);
    if t.rtp != [] { PopSim(t, log, base, RTP, Delivered); }
    if t.rtcp != [] { PopSim(t, log, base, RTCP, Delivered); }
    if Oldest(log, w) == |log| { MarkNothing(log, Delivered); }
  }

  lemma MarkNothing(log: seq<Arrival>, f: Fate)
    ensures Mark(log, |log|, f) == log
  {
  }

  /** The rings' fronts stand in the log as their numbers say; an empty ring has nothing held. */
  lemma OlderFirst(t: Track, log: seq<Arrival>, base: nat)
    requires Sim(t, log, base)
    ensures forall k :: t.Cache(k) == [] <==> Oldest(log, Only(k)) == |log|
    ensures t.rtp != [] && t.rtcp != [] ==>
              (t.rtp[0].seqNo > t.rtcp[0].seqNo <==> Oldest(log, Only(RTCP)) < Oldest(log, Only(RTP)))
  {
    hide Positions, Total;
    OldestIsFirstPosition(log, RTP);
    OldestIsFirstPosition(log, RTCP);
  }

  /** At the last number, a ring starts with number 0 exactly when the message 2^32 places back
      is of its kind and still held; that message is then the oldest of all. */
  lemma NumberZero(t: Track, log: seq<Arrival>, base: nat, k: Kind)
    requires Sim(t, log, base) && t.seqNo == MAX_SEQ
    ensures (t.Cache(k) != [] && t.Cache(k)[0].seqNo == 0) <==> (Evicts(t, log) && log[|log| - WORD].kind == k)
    ensures Evicts(t, log) && log[|log| - WORD].kind == k ==> Oldest(log, ALL) == Oldest(log, Only(k)) == |log| - WORD
  {
    hide Positions, Total;
    FirstPosition(log, RTP);
    FirstPosition(log, RTCP);
    OldestIsFirstPosition(log, RTP);
    OldestIsFirstPosition(log, RTCP);
    OldestOfAll(log);
    if Evicts(t, log) && log[|log| - WORD].kind == k {
      assert Wanted(log[|log| - WORD], Only(k));
    }
  }

  lemma ShiftRings(c: seq<Slot>, log: seq<Arrival>, h: seq<nat>, base: nat, offset: nat)
    requires Rings(c, log, h, base) && forall i :: 0 <= i < |c| ==> offset <= c[i].seqNo <= MAX_SEQ
    ensures Rings(Shift(c, offset), log, h, base + offset)
  {
    forall i | 0 <= i < |c| ensures Shift(c, offset)[i].seqNo == c[i].seqNo - offset {}
  }

  /** The rings as the rebase finds them once number 0 is gone. */
  function Trimmed(t: Track): Track
  {
    var (rtp, rtcp, offset) := MakesureMinSeq(t.rtp, t.rtcp);
    t.(rtp := rtp, rtcp := rtcp)
  }

  lemma TrimmedSim(t: Track, log: seq<Arrival>, base: nat)
    requires Sim(t, log, base) && t.seqNo == MAX_SEQ
    ensures Sim(Trimmed(t), LogRebase(t, log), base)
  {
    hide Positions, Total, Rings;
    RingsAscend(t, log, base);
    MakesureMeaning(t.rtp, t.rtcp);
    NumberZero(t, log, base, RTP);
    NumberZero(t, log, base, RTCP);
    if Evicts(t, log) { PopSim(t, log, base, log[|log| - WORD].kind, Evicted); }
  }

  /** The rebase subtracts a positive offset, and only from numbers at least as large. */
  lemma OffsetIsSafe(t: Track, log: seq<Arrival>, base: nat, k: Kind)
    requires Sim(t, log, base) && t.seqNo == MAX_SEQ
    ensures var offset := MakesureMinSeq(t.rtp, t.rtcp).2;
            && 0 < offset <= MAX_SEQ
            && forall i :: 0 <= i < |Trimmed(t).Cache(k)| ==> offset <= Trimmed(t).Cache(k)[i].seqNo <= MAX_SEQ
  {
    hide Positions, Total;
    RingsAscend(t, log, base);
    MakesureMeaning(t.rtp, t.rtcp);
    forall i | 0 <= i < |t.Cache(k)| ensures t.Cache(k)[i].seqNo <= MAX_SEQ {
      assert Rings(t.Cache(k), log, Positions(log, k), base);
    }
  }

  lemma ShiftSim(u: Track, log: seq<Arrival>, base: nat, offset: nat)
    requires Sim(u, log, base) && u.seqNo == MAX_SEQ && 0 < offset <= MAX_SEQ
    requires forall k, i :: 0 <= i < |u.Cache(k)| ==> offset <= u.Cache(k)[i].seqNo <= MAX_SEQ
    ensures var rtp, rtcp := Shift(u.rtp, offset), Shift(u.rtcp, offset);
            Sim(u.(rtp := rtp, rtcp := rtcp, seqNo := Sub32(u.seqNo, offset)), log, base + offset)
    ensures Sub32(u.seqNo, offset) < MAX_SEQ
  {
    assert u.rtp == u.Cache(RTP) && u.rtcp == u.Cache(RTCP);
    ShiftRings(u.rtp, log, Positions(log, RTP), base, offset);
    ShiftRings(u.rtcp, log, Positions(log, RTCP), base, offset);
  }

  /** A rebase changes no message's place in the order, evicts at most one message, and leaves
      room for the next number. */
  lemma RebaseSim(t: Track, log: seq<Arrival>, base: nat) returns (base': nat)
    requires Sim(t, log, base)
    ensures Sim(Rebase(t), LogRebase(t, log), base')
    ensures Rebase(t).seqNo < MAX_SEQ
  {
    base' := base;
    if t.seqNo == MAX_SEQ {
      var offset := MakesureMinSeq(t.rtp, t.rtcp).2;
      TrimmedSim(t, log, base);
      OffsetIsSafe(t, log, base, RTP);
      OffsetIsSafe(t, log, base, RTCP);
      ShiftSim(Trimmed(t), LogRebase(t, log), base, offset);
      base' := base + offset;
    }
  }

  lemma AppendPosition(log: seq<Arrival>, k: Kind, msg: Msg)
    ensures forall k' :: Positions(log + [Arrival(k, msg, Held)], k') ==
              Positions(log, k') + if k' == k then [|log|] else []
  {
    assert (log + [Arrival(k, msg, Held)])[..|log|] == log;
  }

  lemma AppendRings(c: seq<Slot>, log: seq<Arrival>, h: seq<nat>, base: nat, k: Kind, x: Slot)
    requires Rings(c, log, h, base) && x.seqNo + base == |log| + 1
    ensures var log' := log + [Arrival(k, x.msg, Held)];
            Rings(c, log', h, base) && Rings(c + [x], log', h + [|log|], base)
  {
  }

  /** A ring with room takes the new message at the end. */
  lemma AppendSim(u: Track, log: seq<Arrival>, base: nat, k: Kind, msg: Msg)
    requires Sim(u, log, base) && u.seqNo < MAX_SEQ && |u.Cache(k)| < u.cap
    ensures var x := Slot(u.seqNo + 1, msg);
            Sim(u.WithCache(k, u.Cache(k) + [x]).(seqNo := u.seqNo + 1), log + [Arrival(k, msg, Held)], base)
  {
    var x := Slot(u.seqNo + 1, msg);
    AppendPosition(log, k, msg);
    AppendRings(u.rtp, log, Positions(log, RTP), base, k, x);
    AppendRings(u.rtcp, log, Positions(log, RTCP), base, k, x);
  }

  /** Making room drops the oldest held message of the kind. */
  function WithRoom(u: Track, k: Kind): Track
    requires Sized(u)
  {
    if |u.Cache(k)| == u.cap then Pop(u, k).0 else u
  }

  function LogWithRoom(log: seq<Arrival>, cap: nat, k: Kind): seq<Arrival>
  {
    if HeldCount(log, k) == cap then Mark(log, Oldest(log, Only(k)), Dropped) else log
  }

  lemma WithRoomSim(u: Track, log: seq<Arrival>, base: nat, k: Kind)
    requires Sim(u, log, base)
    ensures Sim(WithRoom(u, k), LogWithRoom(log, u.cap, k), base) && |WithRoom(u, k).Cache(k)| < u.cap
  {
    assert |u.Cache(k)| == |Positions(log, k)|;
    if |u.Cache(k)| == u.cap { PopSim(u, log, base, k, Dropped); }
  }

  lemma ArriveSteps(t: Track, k: Kind, msg: Msg)
    requires Sized(t) && Sized(Rebase(t)) && Rebase(t).cap == t.cap && Rebase(t).seqNo < MAX_SEQ
    ensures var v := WithRoom(Rebase(t), k);
            var w := v.WithCache(k, v.Cache(k) + [Slot(v.seqNo + 1, msg)]).(seqNo := v.seqNo + 1);
            var t' := Arrive(t, k, msg);
            t'.cap == w.cap && t'.rtp == w.rtp && t'.rtcp == w.rtcp && t'.seqNo == w.seqNo
  {
  }

  /** An arrival is an arrival in the log, after the eviction a rebase may make. */
  lemma ArriveSim(t: Track, log: seq<Arrival>, base: nat, k: Kind, msg: Msg) returns (base': nat)
    requires Sim(t, log, base)
    ensures Sim(Arrive(t, k, msg), LogArrive(LogRebase(t, log), t.cap, k, msg), base')
  {
    hide Positions, Total, Rings;
    base' := RebaseSim(t, log, base);
    var log1 := LogRebase(t, log);
    WithRoomSim(Rebase(t), log1, base', k);
    AppendSim(WithRoom(Rebase(t), k), LogWithRoom(log1, t.cap, k), base', k, msg);
    ArriveSteps(t, k, msg);
  }

  // ---- The ledger ------------------------------------------------------------------------

  /** Every message has one fate, so nothing is lost and nothing is counted twice. */
  lemma {:induction false} LedgerBalances(log: seq<Arrival>, k: Kind, bytes: bool)
    ensures Total(log, k, None, bytes) ==
            Total(log, k, Some(Delivered), bytes) + Total(log, k, Some(Dropped), bytes) +
            Total(log, k, Some(Evicted), bytes) + Total(log, k, Some(Held), bytes)
  {
    if log != [] { LedgerBalances(log[..|log| - 1], k, bytes); }
  }

  lemma {:induction false} TotalMark(log: seq<Arrival>, i: nat, f: Fate, k: Kind, g: Option<Fate>, bytes: bool)
    requires i < |log|
    ensures Total(Mark(log, i, f), k, g, bytes) ==
            Total(log, k, g, bytes) - Weight(log[i], k, g, bytes) + Weight(log[i].(fate := f), k, g, bytes)
    decreases |log|
  {
    var n := |log| - 1;
    if i < n {
      TotalMark(log[..n], i, f, k, g, bytes);
      assert Mark(log, i, f)[..n] == Mark(log[..n], i, f);
    } else {
      assert Mark(log, i, f)[..n] == log[..n];
    }
  }

  /** Totals at the last reset; `goneBytes` had been delivered or evicted by then. */
  datatype Base = Base(packets: nat, bytes: nat, dropPackets: nat, dropBytes: nat, goneBytes: nat)

  function GoneBytes(log: seq<Arrival>, k: Kind): nat
  {
    Total(log, k, Some(Delivered), true) + Total(log, k, Some(Evicted), true)
  }

  /** The totals of a kind in the log. */
  function ResetBase(log: seq<Arrival>, k: Kind): Base
  {
    Base(Total(log, k, None, false), Total(log, k, None, true),
         Total(log, k, Some(Dropped), false), Total(log, k, Some(Dropped), true), GoneBytes(log, k))
  }

  /** The machine counters are the totals since the last reset, modulo their widths, and since that
      reset no more packets were dropped than received. */
  predicate Follows(s: Stat, total: Base, b: Base)
  {
    && b.packets <= total.packets && b.bytes <= total.bytes
    && b.dropPackets <= total.dropPackets && b.dropBytes <= total.dropBytes
    && s.receivePackets == (total.packets - b.packets) % WORD
    && s.receiveBytes == (total.bytes - b.bytes) % LONG
    && s.dropPackets == (total.dropPackets - b.dropPackets) % WORD
    && s.dropBytes == (total.dropBytes - b.dropBytes) % LONG
    && total.dropPackets - b.dropPackets <= total.packets - b.packets
    && b.goneBytes <= total.goneBytes
    && 0 <= HeldAtReset(b)
  }

  ghost predicate Counts(s: Stat, log: seq<Arrival>, k: Kind, b: Base) { Follows(s, ResetBase(log, k), b) }

  lemma AddModWord(total: nat, base: nat, x: nat)
    requires base <= total
    ensures ((total - base) % WORD + x) % WORD == (total + x - base) % WORD
  {
  }

  lemma AddModLong(total: nat, base: nat, x: nat)
    requires base <= total
    ensures ((total - base) % LONG + x) % LONG == (total + x - base) % LONG
  {
  }

  lemma TallyFollows(s: Stat, c: seq<Slot>, cap: nat, msg: Msg, total: Base, b: Base)
    requires Follows(s, total, b) && 1 <= cap
    ensures var drop := |c| == cap;
            Follows(Tally(s, c, cap, msg),
                    Base(total.packets + 1, total.bytes + |msg|, total.dropPackets + (if drop then 1 else 0),
                         total.dropBytes + (if drop then |c[0].msg| else 0), total.goneBytes), b)
  {
    AddModWord(total.packets, b.packets, 1);
    AddModLong(total.bytes, b.bytes, |msg|);
    if |c| == cap {
      AddModWord(total.dropPackets, b.dropPackets, 1);
      AddModLong(total.dropBytes, b.dropBytes, |c[0].msg|);
    }
  }

  /** Marking the oldest message delivered or evicted moves no counter. */
  lemma MarkKeepsCounts(s: Stat, log: seq<Arrival>, k: Kind, b: Base, i: nat, f: Fate)
    requires Counts(s, log, k, b) && f in {Delivered, Evicted}
    requires i < |log| ==> log[i].fate == Held
    ensures Counts(s, Mark(log, i, f), k, b)
  {
    hide Total;
    if i < |log| {
      TotalMark(log, i, f, k, None, false);
      TotalMark(log, i, f, k, None, true);
      TotalMark(log, i, f, k, Some(Dropped), false);
      TotalMark(log, i, f, k, Some(Dropped), true);
      TotalMark(log, i, f, k, Some(Delivered), true);
      TotalMark(log, i, f, k, Some(Evicted), true);
    }
  }

  lemma TotalAppend(log: seq<Arrival>, a: Arrival, k: Kind, f: Option<Fate>, bytes: bool)
    ensures Total(log + [a], k, f, bytes) == Total(log, k, f, bytes) + Weight(a, k, f, bytes)
  {
    assert (log + [a])[..|log|] == log;
  }

  /** The totals that the counters follow, after an arrival of kind `k`. */
  lemma TotalArrive(log: seq<Arrival>, cap: nat, k: Kind, msg: Msg, k': Kind, bytes: bool)
    ensures var log' := LogArrive(log, cap, k, msg);
            var o := Oldest(log, Only(k));
            && Total(log', k', None, bytes) == Total(log, k', None, bytes) +
                (if k' == k then (if bytes then |msg| else 1) else 0)
            && Total(log', k', Some(Dropped), bytes) == Total(log, k', Some(Dropped), bytes) +
               (if k' == k && HeldCount(log, k) == cap && o < |log| then (if bytes then |log[o].msg| else 1) else 0)
            && GoneBytes(log', k') == GoneBytes(log, k')
  {
    hide Total;
    var log1, a := LogWithRoom(log, cap, k), Arrival(k, msg, Held);
    var o := Oldest(log, Only(k));
    TotalAppend(log1, a, k', None, bytes);
    TotalAppend(log1, a, k', Some(Dropped), bytes);
    TotalAppend(log1, a, k', Some(Delivered), true);
    TotalAppend(log1, a, k', Some(Evicted), true);
    if o < |log| {
      TotalMark(log, o, Dropped, k', Some(Delivered), true);
      TotalMark(log, o, Dropped, k', Some(Evicted), true);
      TotalMark(log, o, Dropped, k', None, bytes);
      TotalMark(log, o, Dropped, k', Some(Dropped), bytes);
    }
  }

  lemma TallyCounts(s: Stat, c: seq<Slot>, log: seq<Arrival>, cap: nat, k: Kind, msg: Msg, b: Base)
    requires Counts(s, log, k, b) && 1 <= cap && |c| == HeldCount(log, k)
    requires c != [] ==> Oldest(log, Only(k)) < |log| && c[0].msg == log[Oldest(log, Only(k))].msg
    ensures Counts(Tally(s, c, cap, msg), LogArrive(log, cap, k, msg), k, b)
  {
    hide Total, Follows, Tally;
    TallyFollows(s, c, cap, msg, ResetBase(log, k), b);
    TotalArrive(log, cap, k, msg, k, false);
    TotalArrive(log, cap, k, msg, k, true);
  }

  // ---- Runs ------------------------------------------------------------------------------

  datatype Event = Arriving(kind: Kind, msg: Msg) | Receiving(want: Want) | Resetting(kind: Kind)

  /** A track, the log of all that arrived on it, and the totals at its last resets. */
  datatype World = World(t: Track, log: seq<Arrival>, rtpBase: Base, rtcpBase: Base)
  {
    function BaseOf(k: Kind): Base { if k == RTP then rtpBase else rtcpBase }
  }

  ghost predicate Faithful(w: World)
  {
    && w.t.seqNo <= |w.log| && Sim(w.t, w.log, |w.log| - w.t.seqNo)
    && Counts(w.t.rtpStat, w.log, RTP, w.rtpBase) && Counts(w.t.rtcpStat, w.log, RTCP, w.rtcpBase)
  }

  function Next(w: World, e: Event): World
    requires Sized(w.t)
  {
    match e
    case Arriving(k, msg) => w.(t := Arrive(w.t, k, msg), log := LogArrive(LogRebase(w.t, w.log), w.t.cap, k, msg))
    case Receiving(want) => w.(t := Receive(w.t, want).0, log := Mark(w.log, Oldest(w.log, want), Delivered))
    case Resetting(k) =>
      if k == RTP then w.(t := Reset(w.t, k), rtpBase := ResetBase(w.log, k))
      else w.(t := Reset(w.t, k), rtcpBase := ResetBase(w.log, k))
  }

  /** The counters touched by an arrival, and the ones of the other kind. */
  lemma ArriveCounts(w: World, k: Kind, msg: Msg, k': Kind)
    requires Faithful(w)
    ensures var n := Next(w, Arriving(k, msg)); Counts(n.t.StatOf(k'), n.log, k', w.BaseOf(k'))
  {
    hide Total, Positions, Counts, Tally, Oldest;
    var log1 := LogRebase(w.t, w.log);
    var base' := RebaseSim(w.t, w.log, |w.log| - w.t.seqNo);
    OldestHeld(w.log, ALL);
    OldestHeld(log1, Only(k));
    MarkKeepsCounts(w.t.StatOf(k'), w.log, k', w.BaseOf(k'), Oldest(w.log, ALL), Evicted);
    var u := Rebase(w.t);
    if u.Cache(k) != [] { PopSim(u, log1, base', k, Dropped); }
    if k' == k {
      TallyCounts(u.StatOf(k), u.Cache(k), log1, u.cap, k, msg, w.BaseOf(k));
    } else {
      OtherCounts(w.t.StatOf(k'), log1, u.cap, k, msg, k', w.BaseOf(k'));
    }
  }

  lemma OldestHeld(log: seq<Arrival>, w: Want)
    ensures Oldest(log, w) < |log| ==> log[Oldest(log, w)].fate == Held
  {
  }

  lemma OtherCounts(s: Stat, log: seq<Arrival>, cap: nat, k: Kind, msg: Msg, k': Kind, b: Base)
    requires Counts(s, log, k', b) && k' != k
    ensures Counts(s, LogArrive(log, cap, k, msg), k', b)
  {
    hide Total;
    TotalArrive(log, cap, k, msg, k', false);
    TotalArrive(log, cap, k, msg, k', true);
  }

  lemma StepFaithful(w: World, e: Event)
    requires Faithful(w)
    ensures Faithful(Next(w, e))
  {
    hide Total, Positions, Rings, Counts, Oldest, Arrive, Receive;
    match e
    case Arriving(k, msg) =>
      var base' := ArriveSim(w.t, w.log, |w.log| - w.t.seqNo, k, msg);
      ArriveCounts(w, k, msg, RTP);
      ArriveCounts(w, k, msg, RTCP);
    case Receiving(want) =>
      ReceiveIsOldest(w.t, w.log, |w.log| - w.t.seqNo, want);
      ReceiveKeepsStats(w.t, want);
      OldestHeld(w.log, want);
      MarkKeepsCounts(w.t.rtpStat, w.log, RTP, w.rtpBase, Oldest(w.log, want), Delivered);
      MarkKeepsCounts(w.t.rtcpStat, w.log, RTCP, w.rtcpBase, Oldest(w.log, want), Delivered);
    case Resetting(k) =>
      ResetCounts(w.log, k);
  }

  lemma ReceiveKeepsStats(t: Track, want: Want)
    ensures var t' := Receive(t, want).0; t'.rtpStat == t.rtpStat && t'.rtcpStat == t.rtcpStat && t'.seqNo == t.seqNo
  {
  }

  lemma ResetCounts(log: seq<Arrival>, k: Kind)
    ensures Counts(ZERO_STAT, log, k, ResetBase(log, k))
  {
    LedgerBalances(log, k, true);
    hide Total;
  }

  function Fresh(cap: nat): World
  {
    World(Track(cap, [], [], 0, ZERO_STAT, ZERO_STAT), [], Base(0, 0, 0, 0, 0), Base(0, 0, 0, 0, 0))
  }

  lemma FreshCounts(k: Kind)
    ensures Counts(ZERO_STAT, [], k, Base(0, 0, 0, 0, 0))
  {
    ResetCounts([], k);
    assert ResetBase([], k) == Base(0, 0, 0, 0, 0);
    hide Follows;
  }

  lemma FreshSim(cap: nat)
    requires 1 <= cap
    ensures Sim(Fresh(cap).t, [], 0)
  {
    hide Total;
  }

  lemma FreshIsFaithful(cap: nat)
    requires 1 <= cap
    ensures Faithful(Fresh(cap))
  {
    FreshCounts(RTP);
    FreshCounts(RTCP);
    FreshSim(cap);
    hide Counts, Sim;
  }

  ghost predicate Run(w: World, es: seq<Event>, w': World)
    decreases |es|
  {
    if es == [] then w == w' else Sized(w.t) && Run(Next(w, es[0]), es[1..], w')
  }

  lemma {:induction false} RunFaithful(w: World, es: seq<Event>, w': World)
    requires Faithful(w) && Run(w, es, w')
    ensures Faithful(w')
    decreases |es|
  {
    hide Faithful, Next;
    if es != [] {
      StepFaithful(w, es[0]);
      RunFaithful(Next(w, es[0]), es[1..], w');
    }
  }

  /** Rebasing is invisible: after any run, however many times the numbers were rebased, a read
      returns the oldest message still held that it may return, and null only if there is none;
      every message of a kind was delivered, dropped, evicted or is in the ring; and the machine
      counters are those totals since the last reset, modulo their widths. */
  lemma RebasingIsInvisible(cap: nat, es: seq<Event>, w: World, want: Want)
    requires 1 <= cap && Run(Fresh(cap), es, w)
    ensures var o := Oldest(w.log, want);
            Receive(w.t, want).1 == if o < |w.log| then Some(w.log[o].msg) else None
    ensures forall k :: Total(w.log, k, None, false) ==
              Total(w.log, k, Some(Delivered), false) + Total(w.log, k, Some(Dropped), false) +
              Total(w.log, k, Some(Evicted), false) + |w.t.Cache(k)|
    ensures forall k :: Follows(w.t.StatOf(k), ResetBase(w.log, k), w.BaseOf(k))
  {
    hide Total, Positions, Oldest, Receive, Next, Follows, ResetBase;
    FreshIsFaithful(cap);
    RunFaithful(Fresh(cap), es, w);
    ReceiveIsOldest(w.t, w.log, |w.log| - w.t.seqNo, want);
    LedgerBalances(w.log, RTP, false);
    LedgerBalances(w.log, RTCP, false);
    assert forall k :: |w.t.Cache(k)| == |Positions(w.log, k)|;
  }

  /** The bytes that sat in the ring at the last reset. */
  function HeldAtReset(b: Base): int { b.bytes - b.goneBytes - b.dropBytes }

  /** The bytes in a ring. */
  function RingBytes(c: seq<Slot>): nat
  {
    if c == [] then 0 else RingBytes(c[..|c| - 1]) + |c[|c| - 1].msg|
  }

  /** The bytes of the messages at the given places of the log. */
  function BytesAt(log: seq<Arrival>, h: seq<nat>): nat
    requires forall i :: 0 <= i < |h| ==> h[i] < |log|
  {
    if h == [] then 0 else BytesAt(log, h[..|h| - 1]) + |log[h[|h| - 1]].msg|
  }

  lemma {:induction false} RingBytesAt(c: seq<Slot>, log: seq<Arrival>, h: seq<nat>)
    requires |c| == |h| && forall i :: 0 <= i < |h| ==> h[i] < |log| && c[i].msg == log[h[i]].msg
    ensures RingBytes(c) == BytesAt(log, h)
  {
    if h != [] { RingBytesAt(c[..|c| - 1], log, h[..|h| - 1]); }
  }

  lemma {:induction false} BytesAtShorter(log: seq<Arrival>, n: nat, h: seq<nat>)
    requires n <= |log| && forall i :: 0 <= i < |h| ==> h[i] < n
    ensures BytesAt(log, h) == BytesAt(log[..n], h)
  {
    if h != [] { BytesAtShorter(log, n, h[..|h| - 1]); }
  }

  lemma HeldBytesStep(log: seq<Arrival>, k: Kind)
    requires log != []
    ensures var n := |log| - 1;
            Total(log, k, Some(Held), true) ==
              Total(log[..n], k, Some(Held), true) + if Wanted(log[n], Only(k)) then |log[n].msg| else 0
  {
  }

  /** The bytes at the positions of a kind are those that the log holds of it. */
  lemma {:induction false} HeldBytesAt(log: seq<Arrival>, k: Kind)
    ensures forall i :: 0 <= i < |Positions(log, k)| ==> Positions(log, k)[i] < |log|
    ensures BytesAt(log, Positions(log, k)) == Total(log, k, Some(Held), true)
    decreases |log|
  {
    PositionsMeaning(log, k);
    if log != [] {
      var n := |log| - 1;
      var h := Positions(log[..n], k);
      HeldBytesAt(log[..n], k);
      PositionsStep(log, k);
      HeldBytesStep(log, k);
      hide Positions, Total, HeldCount, Wanted;
      BytesAtShorter(log, n, h);
      assert (h + [n])[..|h|] == h;
    }
  }

  /** Delivered or evicted since the last reset. */
  function GoneSince(log: seq<Arrival>, k: Kind, b: Base): int { GoneBytes(log, k) - b.goneBytes }

  /** Until a counter wraps, the bytes balance: those dropped and gone since the last reset and those
      now in the ring are those received since and those that sat in the ring then. */
  lemma BytesBalance(s: Stat, log: seq<Arrival>, k: Kind, b: Base)
    requires Counts(s, log, k, b)
    requires Total(log, k, None, false) - b.packets < WORD
    requires Total(log, k, None, true) - b.bytes + HeldAtReset(b) < LONG
    ensures s.dropPackets <= s.receivePackets
    ensures s.dropBytes + GoneSince(log, k, b) + Total(log, k, Some(Held), true) == s.receiveBytes + HeldAtReset(b)
    ensures GoneSince(log, k, b) >= 0
  {
    LedgerBalances(log, k, true);
    hide Total;
  }

  /** Until a counter wraps, which it does not while the bytes received since the last reset and those
      in the ring then stay below its width: packets dropped never exceed packets received, resets or
      not. Bytes dropped do not exceed bytes received exactly if what sat in the ring at the last reset
      is no more than what was delivered or evicted since and what is in the ring now; so never without
      a reset, and by at most what sat in the ring. */
  lemma DropsWithinReceived(cap: nat, es: seq<Event>, w: World, k: Kind)
    requires 1 <= cap && Run(Fresh(cap), es, w)
    requires Total(w.log, k, None, false) - w.BaseOf(k).packets < WORD
    requires Total(w.log, k, None, true) - w.BaseOf(k).bytes + HeldAtReset(w.BaseOf(k)) < LONG
    ensures w.t.StatOf(k).dropPackets <= w.t.StatOf(k).receivePackets
    ensures var b, s := w.BaseOf(k), w.t.StatOf(k);
            && s.dropBytes + GoneSince(w.log, k, b) + RingBytes(w.t.Cache(k)) == s.receiveBytes + HeldAtReset(b)
            && (s.dropBytes <= s.receiveBytes <==> HeldAtReset(b) <= GoneSince(w.log, k, b) + RingBytes(w.t.Cache(k)))
            && GoneSince(w.log, k, b) >= 0
            && (Resetting(k) !in es ==> HeldAtReset(b) == 0)
  {
    hide *;
    FreshIsFaithful(cap);
    RunFaithful(Fresh(cap), es, w);
    FaithfulBytes(w, k);
    BytesBalance(w.t.StatOf(k), w.log, k, w.BaseOf(k));
    if Resetting(k) !in es {
      BaseUnchanged(Fresh(cap), es, w, k);
      FreshBase(cap, k);
    }
  }

  /** A faithful track's ring holds the bytes that the log holds, and its counters follow the log. */
  lemma FaithfulBytes(w: World, k: Kind)
    requires Faithful(w)
    ensures RingBytes(w.t.Cache(k)) == Total(w.log, k, Some(Held), true)
    ensures Counts(w.t.StatOf(k), w.log, k, w.BaseOf(k))
  {
    assert Rings(w.t.Cache(k), w.log, Positions(w.log, k), |w.log| - w.t.seqNo);
    hide Total, Sim, Positions;
    RingBytesAt(w.t.Cache(k), w.log, Positions(w.log, k));
    HeldBytesAt(w.log, k);
  }

  lemma FreshBase(cap: nat, k: Kind)
    ensures HeldAtReset(Fresh(cap).BaseOf(k)) == 0
  {
  }

  lemma {:induction false} BaseUnchanged(w: World, es: seq<Event>, w': World, k: Kind)
    requires Run(w, es, w') && Resetting(k) !in es
    ensures w'.BaseOf(k) == w.BaseOf(k)
    decreases |es|
  {
    if es != [] { BaseUnchanged(Next(w, es[0]), es[1..], w', k); }
  }

  /** The counters of a kind count from its last reset, and only that kind's reset does that. */
  lemma ResetStartsTheCount(cap: nat, before: seq<Event>, w: World, es: seq<Event>, w': World, k: Kind)
    requires 1 <= cap && Run(Fresh(cap), before, w)
    requires Sized(w.t) && Run(Next(w, Resetting(k)), es, w') && Resetting(k) !in es
    ensures Follows(w'.t.StatOf(k), ResetBase(w'.log, k), ResetBase(w.log, k))
    ensures var r := Next(w, Resetting(k)).t; r == w.t.(rtpStat := r.rtpStat, rtcpStat := r.rtcpStat)
    ensures forall k' :: k' != k ==> Next(w, Resetting(k)).t.StatOf(k') == w.t.StatOf(k')
  {
    hide Total, Sim, ResetBase, Follows;
    FreshIsFaithful(cap);
    RunFaithful(Fresh(cap), before, w);
    StepFaithful(w, Resetting(k));
    RunFaithful(Next(w, Resetting(k)), es, w');
    BaseUnchanged(Next(w, Resetting(k)), es, w', k);
  }

  /** What the bound above adds is the bytes held in the ring when the counters were reset. */
  lemma HeldAtResetMeaning(log: seq<Arrival>, k: Kind)
    ensures HeldAtReset(ResetBase(log, k)) == Total(log, k, Some(Held), true)
  {
    LedgerBalances(log, k, true);
  }

  lemma FirstOfThree()
    ensures Next(Fresh(1), Arriving(RTP, [1, 2, 3])) ==
            Fresh(1).(t := Track(1, [Slot(1, [1, 2, 3])], [], 1, Stat(0, 0, 3, 1), ZERO_STAT),
                log := [Arrival(RTP, [1, 2, 3], Held)])
  {
    hide MakesureMinSeq, Shift, Oldest;
  }

  lemma DropAfterReset(w: World)
    requires w.t == Track(1, [Slot(1, [1, 2, 3])], [], 1, ZERO_STAT, ZERO_STAT)
    ensures Next(w, Arriving(RTP, [4])).t.rtpStat == Stat(3, 1, 1, 1)
  {
    hide MakesureMinSeq, Shift, LogArrive, LogRebase, Oldest;
  }

  lemma HeldOfOne(msg: Msg)
    ensures Total([Arrival(RTP, msg, Held)], RTP, Some(Held), true) == |msg|
  {
    assert [Arrival(RTP, msg, Held)][..0] == [];
  }

  /** A reset between the arrival of a large message and its drop leaves more bytes dropped than
      received: three bytes dropped, one received. */
  lemma ResetBreaksByteOrder()
    ensures var w1 := Next(Fresh(1), Arriving(RTP, [1, 2, 3]));
            var w3 := Next(Next(w1, Resetting(RTP)), Arriving(RTP, [4]));
            w3.t.rtpStat == Stat(3, 1, 1, 1) && HeldAtReset(w3.rtpBase) == 3
  {
    hide Total, LogArrive, LogRebase, Oldest, Arrive;
    FirstOfThree();
    var w1 := Next(Fresh(1), Arriving(RTP, [1, 2, 3]));
    HeldAtResetMeaning(w1.log, RTP);
    HeldOfOne([1, 2, 3]);
    DropAfterReset(Next(w1, Resetting(RTP)));
  }

  /** What the in-place code needs to know of a faithful track. */
  lemma FaithfulFacts(w: World)
    requires Faithful(w)
    ensures Sized(w.t) && Rebase(w.t).seqNo < MAX_SEQ && w.t.seqNo <= MAX_SEQ
    ensures w.t.seqNo == MAX_SEQ ==>
              var (p, c, offset) := MakesureMinSeq(w.t.rtp, w.t.rtcp);
              && offset <= MAX_SEQ
              && (forall i :: 0 <= i < |p| ==> offset <= p[i].seqNo <= MAX_SEQ)
              && (forall i :: 0 <= i < |c| ==> offset <= c[i].seqNo <= MAX_SEQ)
  {
    hide Positions, Total, Counts, Rings, MakesureMinSeq, LogRebase;
    var base := |w.log| - w.t.seqNo;
    var base' := RebaseSim(w.t, w.log, base);
    if w.t.seqNo == MAX_SEQ {
      OffsetIsSafe(w.t, w.log, base, RTP);
      OffsetIsSafe(w.t, w.log, base, RTCP);
      assert Trimmed(w.t).Cache(RTP) == Trimmed(w.t).rtp && Trimmed(w.t).Cache(RTCP) == Trimmed(w.t).rtcp;
    }
  }

  // ---- The track itself ------------------------------------------------------------------

  datatype Reply = NotPrepared | Got(msg: Option<Msg>)

  class TrackState {
    const cap: nat
    var inited: bool
    var rtp: seq<Slot>
    var rtcp: seq<Slot>
    var seqNo: nat
    var rtpStat: Stat
    var rtcpStat: Stat
    ghost var log: seq<Arrival>
    ghost var rtpBase: Base
    ghost var rtcpBase: Base

    ghost function View(): World
      reads this
    {
      World(Track(cap, rtp, rtcp, seqNo, rtpStat, rtcpStat), log, rtpBase, rtcpBase)
    }

    ghost predicate Valid()
      reads this
    {
      Faithful(View())
    }

    constructor (cap: nat)
      requires 1 <= cap
      ensures Valid() && View() == Fresh(cap) && !inited
    {
      this.cap, inited, rtp, rtcp, seqNo := cap, false, [], [], 0;
      rtpStat, rtcpStat, log := ZERO_STAT, ZERO_STAT, [];
      rtpBase, rtcpBase := Base(0, 0, 0, 0, 0), Base(0, 0, 0, 0, 0);
      new;
      FreshIsFaithful(cap);
    }

    method Prepare()
      modifies this`inited
      ensures inited
    {
      inited := true;
    }

    method MakesureMin() returns (offset: nat)
      modifies this`rtp, this`rtcp
      ensures (rtp, rtcp, offset) == MakesureMinSeq(old(rtp), old(rtcp))
      decreases |rtp| + |rtcp|
    {
      if rtp == [] && rtcp == [] { return MAX_SEQ; }
      if rtp == [] || (rtcp != [] && rtcp[0].seqNo <= rtp[0].seqNo) {
        offset := rtcp[0].seqNo;
        if offset == 0 {
          rtcp := rtcp[1..];
          offset := MakesureMin();
        }
      } else {
        offset := rtp[0].seqNo;
        if offset == 0 {
          rtp := rtp[1..];
          offset := MakesureMin();
        }
      }
    }

    /** `v.first -= offset` over one ring; no subtraction goes below zero. */
    static method ShiftRing(c: seq<Slot>, offset: nat) returns (c': seq<Slot>)
      requires forall i :: 0 <= i < |c| ==> offset <= c[i].seqNo <= MAX_SEQ
      ensures c' == Shift(c, offset)
      ensures forall i :: 0 <= i < |c| ==> c'[i] == c[i].(seqNo := c[i].seqNo - offset)
    {
      c' := c;
      for i := 0 to |c|
        invariant |c'| == |c|
        invariant forall j :: 0 <= j < |c| ==> c'[j] == if j < i then c[j].(seqNo := c[j].seqNo - offset) else c[j]
      {
        c' := c'[i := c'[i].(seqNo := c'[i].seqNo - offset)];
      }
    }

    method RebaseInPlace()
      requires Valid()
      modifies this`rtp, this`rtcp, this`seqNo
      ensures View().t == Rebase(old(View()).t) && seqNo < MAX_SEQ
    {
      FaithfulFacts(View());
      hide Faithful, Sized, MakesureMinSeq;
      if seqNo == MAX_SEQ {
        var offset := MakesureMin();
        rtcp := ShiftRing(rtcp, offset);
        rtp := ShiftRing(rtp, offset);
        seqNo := seqNo - offset;
      }
    }

    method OnTrackMsg(isRtcp: bool, data: Msg)
      requires Valid()
      modifies this`rtp, this`rtcp, this`seqNo, this`rtpStat, this`rtcpStat, this`log
      ensures Valid() && View() == Next(old(View()), Arriving(if isRtcp then RTCP else RTP, data))
    {
      ghost var w, k := View(), if isRtcp then RTCP else RTP;
      FaithfulFacts(w);
      StepFaithful(w, Arriving(k, data));
      hide Faithful, LogArrive, LogRebase, Rebase, Store;
      RebaseInPlace();
      CountAndPush(isRtcp, data);
      log := LogArrive(LogRebase(w.t, log), cap, k, data);
    }

    method CountAndPush(isRtcp: bool, data: Msg)
      requires Sized(View().t) && seqNo < MAX_SEQ
      modifies this`rtp, this`rtcp, this`seqNo, this`rtpStat, this`rtcpStat
      ensures View().t == Store(old(View()).t, if isRtcp then RTCP else RTP, data)
    {
      var cache, stat := if isRtcp then rtcp else rtp, if isRtcp then rtcpStat else rtpStat;
      stat := stat.(receiveBytes := (stat.receiveBytes + |data|) % LONG,
          receivePackets := (stat.receivePackets + 1) % WORD);
      if |cache| == cap {
        stat := stat.(dropBytes := (stat.dropBytes + |cache[0].msg|) % LONG,
            dropPackets := (stat.dropPackets + 1) % WORD);
        cache := cache[1..];
      }
      seqNo := seqNo + 1;
      cache := cache + [Slot(seqNo, data)];
      if isRtcp { rtcp, rtcpStat := cache, stat; } else { rtp, rtpStat := cache, stat; }
    }

    /** The reply is the oldest message still held that may be returned. */
    method ReceiveMsg(want: Want) returns (r: Reply)
      requires Valid()
      modifies this`rtp, this`rtcp, this`log
      ensures Valid()
      ensures r == if !inited then NotPrepared
                   else Got(if Oldest(old(log), want) < |old(log)| then Some(old(log)[Oldest(old(log), want)].msg)
                       else None)
      ensures View() == if inited then Next(old(View()), Receiving(want)) else old(View())
    {
      if !inited { return NotPrepared; }
      ghost var w := View();
      FaithfulFacts(w);
      StepFaithful(w, Receiving(want));
      ReceiveIsOldest(w.t, log, |log| - seqNo, want);
      hide Faithful, Sim, Receive, Oldest;
      var msg := Take(want);
      log := Next(w, Receiving(want)).log;
      return Got(msg);
    }

    method Take(want: Want) returns (msg: Option<Msg>)
      modifies this`rtp, this`rtcp
      ensures (View().t, msg) == Receive(old(View()).t, want)
    {
      var takeRtp: bool;
      if want.ALL? {
        if rtp == [] && rtcp == [] { return None; }
        takeRtp := rtcp == [] || (rtp != [] && !(rtp[0].seqNo > rtcp[0].seqNo));
      } else {
        takeRtp := want.kind == RTP;
        if (if takeRtp then rtp else rtcp) == [] { return None; }
      }
      if takeRtp {
        msg := Some(rtp[0].msg);
        rtp := rtp[1..];
      } else {
        msg := Some(rtcp[0].msg);
        rtcp := rtcp[1..];
      }
    }

    method ResetData(k: Kind)
      requires Valid()
      modifies this`rtpStat, this`rtcpStat, this`rtpBase, this`rtcpBase
      ensures Valid() && View() == Next(old(View()), Resetting(k))
      ensures (if k == RTP then rtpStat else rtcpStat) == ZERO_STAT
      ensures if k == RTP then rtcpStat == old(rtcpStat) else rtpStat == old(rtpStat)
    {
      StepFaithful(View(), Resetting(k));
      if k == RTP {
        rtpStat, rtpBase := ZERO_STAT, ResetBase(log, k);
      } else {
        rtcpStat, rtcpBase := ZERO_STAT, ResetBase(log, k);
      }
    }
  }
}
