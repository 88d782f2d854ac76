/** The application sink: one ring of samples numbered by a 32-bit counter, filled by a streaming
    callback and emptied by one puller that sleeps on two one-slot notification channels. */
module AppSink {
  import opened Wrappers
  import opened MachineWords

  const MAX_CAPACITY: nat := 0x7fff_ffff

  datatype Sample = Sample(id: nat, size: nat)

  datatype Slot = Slot(seqNo: nat, sample: Sample)

  datatype Stat = Stat(droppedBytes: nat, droppedSamples: nat, receivedBytes: nat, receivedSamples: nat)

  datatype Sink = Sink(cap: nat, cache: seq<Slot>, seqNo: nat, eos: bool, sampleNotified: bool, eosNotified: bool,
      stat: Stat)

  function MakesureMinSeq(s: Sink): nat { if s.cache == [] then MAX_SEQ else s.cache[0].seqNo }

  function Rebase(s: Sink): Sink
  {
    if s.seqNo != MAX_SEQ then s
    else
      var offset := MakesureMinSeq(s);
      s.(cache := seq(|s.cache|, i requires 0 <= i < |s.cache| => s.cache[i].(seqNo :=
          Sub32(s.cache[i].seqNo, offset))),
         seqNo := Sub32(s.seqNo, offset))
  }

  function Store(s: Sink, x: Sample): Sink
    requires 1 <= s.cap
  {
    var st := s.stat.(receivedBytes := (s.stat.receivedBytes + x.size) % LONG,
                      receivedSamples := (s.stat.receivedSamples + 1) % WORD);
    var full := |s.cache| == s.cap;
    s.(cache := (if full then s.cache[1..] else s.cache) + [Slot(s.seqNo, x)],
       seqNo := Inc32(s.seqNo),
       sampleNotified := true,
       stat := if full
               then st.(droppedBytes := (st.droppedBytes + s.cache[0].sample.size) % LONG,
                        droppedSamples := (st.droppedSamples + 1) % WORD)
               else st)
  }

  /** One sample callback; the framework may turn out to have no sample to give. */
  function OnNewSample(s: Sink, x: Option<Sample>): Sink
    requires 1 <= s.cap
  {
    if x.None? then Rebase(s) else Store(Rebase(s), x.value)
  }

  function OnEos(s: Sink): Sink { s.(eos := true, eosNotified := true) }

  datatype Answer = Nothing | Returned(sample: Option<Sample>)

  /** The puller's critical section, the same before and after each sleep. */
  function TryTake(s: Sink): (Sink, Answer)
  {
    if s.cache != [] then (s.(cache := s.cache[1..]), Returned(Some(s.cache[0].sample)))
    else if s.eos then (s, Returned(None))
    else (s, Nothing)
  }

  // ---- Runs ------------------------------------------------------------------------------

  datatype Fate = Pulled | Dropped

  /** `Looking`: about to enter the critical section; `Asleep`: suspended on the two channels. */
  datatype Puller = Away | Looking | Asleep

  /** The sink, its puller, all samples received in order, the fates of those that left (oldest
      first), and what the puller has returned. */
  datatype World = World(s: Sink, puller: Puller, log: seq<Sample>, fates: seq<Fate>, returned: seq<Sample>)

  datatype Event =
    | NewSample(sample: Option<Sample>)
    | Eos
    | Pull                                      // pull_sample is called
    | Look                                      // the critical section
    | Wake(bySample: bool)                      // a channel is read
    | Cancel(bySample: bool, byEos: bool)       // the closer ends the sleep; a token may be lost with it

  predicate Enabled(w: World, e: Event)
  {
    match e
    case NewSample(_) => true
    case Eos => true
    case Pull => w.puller.Away?
    case Look => w.puller.Looking?
    case Wake(bySample) => w.puller.Asleep? && if bySample then w.s.sampleNotified else w.s.eosNotified
    case Cancel(_, _) => w.puller.Asleep?
  }

  function Next(w: World, e: Event): World
    requires 1 <= w.s.cap
  {
    match e
    case NewSample(x) =>
      var full := |w.s.cache| == w.s.cap;
      if x.None? then w.(s := OnNewSample(w.s, x))
      else w.(s := OnNewSample(w.s, x), log := w.log + [x.value], fates := if full then w.fates + [Dropped]
          else w.fates)
    case Eos => w.(s := OnEos(w.s))
    case Pull => w.(puller := Looking)
    case Look =>
      var (s', a) := TryTake(w.s);
      if a == Nothing then w.(puller := Asleep)
      else if a.sample.None? then w.(puller := Away)
      else w.(s := s', puller := Away, fates := w.fates + [Pulled], returned := w.returned + [a.sample.value])
    case Wake(bySample) =>
      w.(puller := Looking,
         s := if bySample then w.s.(sampleNotified := false) else w.s.(eosNotified := false))
    case Cancel(bySample, byEos) =>
      w.(puller := Away,
         s := w.s.(sampleNotified := w.s.sampleNotified && !bySample, eosNotified := w.s.eosNotified && !byEos))
  }

  /** The samples with a given fate, in arrival order. */
  function Chosen(log: seq<Sample>, fates: seq<Fate>, f: Fate): seq<Sample>
    requires |fates| <= |log|
  {
    if fates == [] then []
    else
      var n := |fates| - 1;
      Chosen(log, fates[..n], f) + if fates[n] == f then [log[n]] else []
  }

  function Bytes(xs: seq<Sample>): nat
  {
    if xs == [] then 0 else Bytes(xs[..|xs| - 1]) + xs[|xs| - 1].size
  }

  /** Cached numbers are consecutive and end just below the counter. */
  ghost predicate Contiguous(s: Sink)
  {
    && 1 <= s.cap <= MAX_CAPACITY && |s.cache| <= s.cap
    && |s.cache| <= s.seqNo <= MAX_SEQ
    && forall i :: 0 <= i < |s.cache| ==> s.cache[i].seqNo == s.seqNo - |s.cache| + i
  }

  /** The ring is the part of the log that has no fate yet. */
  ghost predicate Accounted(w: World)
  {
    && |w.fates| + |w.s.cache| == |w.log|
    && (forall i :: 0 <= i < |w.s.cache| ==> w.s.cache[i].sample == w.log[|w.fates| + i])
    && w.returned == Chosen(w.log, w.fates, Pulled)
    && Tallied(w)
  }

  /** The counters are the given totals, modulo their widths. */
  predicate CountsOf(st: Stat, samples: nat, bytes: nat, dropped: nat, droppedBytes: nat)
  {
    && st.receivedSamples == samples % WORD && st.receivedBytes == bytes % LONG
    && st.droppedSamples == dropped % WORD && st.droppedBytes == droppedBytes % LONG
  }

  /** The counters are those of the log and of its dropped samples, modulo their widths. */
  predicate Tallied(w: World)
    requires |w.fates| <= |w.log|
  {
    var dropped := Chosen(w.log, w.fates, Dropped);
    CountsOf(w.s.stat, |w.log|, Bytes(w.log), |dropped|, Bytes(dropped))
  }

  /** A sleeping puller always has a token to wake it when there is something to return. */
  ghost predicate NoLostWakeup(w: World)
  {
    w.puller.Asleep? && (w.s.cache != [] || w.s.eos) ==> w.s.sampleNotified || w.s.eosNotified
  }

  ghost predicate Valid(w: World) { Contiguous(w.s) && Accounted(w) && NoLostWakeup(w) }

  /** A rebase subtracts plainly: nothing goes below zero. */
  lemma RebaseSubtracts(s: Sink)
    requires Contiguous(s) && s.seqNo == MAX_SEQ
    ensures var q, offset := Rebase(s), MakesureMinSeq(s);
            && q == s.(cache := q.cache, seqNo := q.seqNo)
            && |q.cache| == |s.cache| && offset <= MAX_SEQ && q.seqNo == MAX_SEQ - offset
            && forall i :: 0 <= i < |s.cache| ==>
                 offset <= s.cache[i].seqNo && q.cache[i] == s.cache[i].(seqNo := s.cache[i].seqNo - offset)
  {
    RebaseRenumbers(s);
  }

  /** A rebase of a ring that holds anything subtracts at least 2^32-1 less the capacity, leaves
      the numbers 0, 1, ... and never underflows; the counter then has room. */
  lemma RebaseRenumbers(s: Sink)
    requires Contiguous(s) && s.seqNo == MAX_SEQ
    ensures s.cache != [] ==> MAX_SEQ - s.cap <= MakesureMinSeq(s) == MAX_SEQ - |s.cache|
    ensures forall i :: 0 <= i < |s.cache| ==> MakesureMinSeq(s) <= s.cache[i].seqNo && Rebase(s).cache[i].seqNo == i
    ensures Rebase(s).seqNo == |s.cache| < MAX_SEQ && Contiguous(Rebase(s))
  {
    var offset := MakesureMinSeq(s);
    assert s.cache != [] ==> s.cache[0].seqNo == MAX_SEQ - |s.cache|;
  }

  lemma RebaseKeeps(s: Sink)
    requires Contiguous(s)
    ensures Contiguous(Rebase(s)) && Rebase(s).seqNo < MAX_SEQ && (s.seqNo != MAX_SEQ ==> Rebase(s) == s)
    ensures Rebase(s) == s.(cache := Rebase(s).cache, seqNo := Rebase(s).seqNo)
    ensures |Rebase(s).cache| == |s.cache|
    ensures forall i :: 0 <= i < |s.cache| ==> Rebase(s).cache[i].sample == s.cache[i].sample
  {
    if s.seqNo == MAX_SEQ { RebaseRenumbers(s); }
  }

  lemma {:induction false} ChosenPrefix(log: seq<Sample>, more: seq<Sample>, fates: seq<Fate>, f: Fate)
    requires |fates| <= |log|
    ensures Chosen(log + more, fates, f) == Chosen(log, fates, f)
  {
    if fates != [] { ChosenPrefix(log, more, fates[..|fates| - 1], f); }
  }

  lemma ChosenAppend(log: seq<Sample>, fates: seq<Fate>, g: Fate, f: Fate)
    requires |fates| < |log|
    ensures Chosen(log, fates + [g], f) == if g == f then Chosen(log, fates, f) + [log[|fates|]]
        else Chosen(log, fates, f)
  {
    assert (fates + [g])[..|fates|] == fates;
  }

  lemma BytesAppend(xs: seq<Sample>, x: Sample)
    ensures Bytes(xs + [x]) == Bytes(xs) + x.size
  {
    assert (xs + [x])[..|xs|] == xs;
  }

  lemma StoreContiguous(s: Sink, x: Sample)
    requires Contiguous(s) && s.seqNo < MAX_SEQ
    ensures Contiguous(Store(s, x))
  {
  }

  lemma CountStored(s: Sink, x: Sample, samples: nat, bytes: nat, dropped: nat, droppedBytes: nat)
    requires 1 <= s.cap && CountsOf(s.stat, samples, bytes, dropped, droppedBytes)
    ensures var full := |s.cache| == s.cap;
            CountsOf(Store(s, x).stat, samples + 1, bytes + x.size, dropped + (if full then 1 else 0),
                     droppedBytes + (if full then s.cache[0].sample.size else 0))
  {
  }

  /** The counters of a full ring go up with its oldest sample, which is the log's next to leave. */
  lemma StoreTallied(w: World, s: Sink, x: Sample, n: World)
    requires Stored(w, s, x, n) && Tallied(w)
    ensures Tallied(n)
  {
    hide Chosen, Bytes, CountsOf, Store;
    var dropped := Chosen(w.log, w.fates, Dropped);
    CountStored(s, x, |w.log|, Bytes(w.log), |dropped|, Bytes(dropped));
    BytesAppend(w.log, x);
    StoreDrops(w, s, x, n);
  }

  /** What a store adds to the dropped: the ring's oldest, if it is full. */
  lemma StoreDrops(w: World, s: Sink, x: Sample, n: World)
    requires Stored(w, s, x, n)
    ensures var was, now := Chosen(w.log, w.fates, Dropped), Chosen(n.log, n.fates, Dropped);
            if |s.cache| == s.cap
            then |now| == |was| + 1 && Bytes(now) == Bytes(was) + s.cache[0].sample.size
            else now == was
  {
    hide Chosen, Bytes, Store;
    ChosenPrefix(w.log, [x], w.fates, Dropped);
    if |s.cache| == s.cap {
      ChosenAppend(n.log, w.fates, Dropped, Dropped);
      assert s.cache[0].sample == n.log[|w.fates|];
      BytesAppend(Chosen(w.log, w.fates, Dropped), n.log[|w.fates|]);
    }
  }

  /** `n` is `w` with a sample stored in the ring `s`, which is w's but for the numbers. */
  predicate Stored(w: World, s: Sink, x: Sample, n: World)
  {
    && 1 <= s.cap && |s.cache| <= s.cap && s.stat == w.s.stat && |w.fates| + |s.cache| == |w.log|
    && (forall i :: 0 <= i < |s.cache| ==> s.cache[i].sample == w.log[|w.fates| + i])
    && n.s == Store(s, x) && n.log == w.log + [x] && n.returned == w.returned
    && n.fates == (if |s.cache| == s.cap then w.fates + [Dropped] else w.fates)
  }

  lemma StoreAccounted(w: World, s: Sink, x: Sample, n: World)
    requires Stored(w, s, x, n) && Tallied(w) && w.returned == Chosen(w.log, w.fates, Pulled)
    ensures Accounted(n)
  {
    hide Tallied, Chosen;
    StoreTallied(w, s, x, n);
    ChosenPrefix(w.log, [x], w.fates, Pulled);
    if |s.cache| == s.cap { ChosenAppend(n.log, w.fates, Dropped, Pulled); }
    assert n.log[..|w.log|] == w.log && n.s.cache[|n.s.cache| - 1].sample == x;
  }

  lemma SampleAccounted(w: World, x: Sample)
    requires Valid(w)
    ensures Accounted(Next(w, NewSample(Some(x))))
  {
    hide NoLostWakeup, Tallied, Chosen;
    RebaseKeeps(w.s);
    assert Accounted(w) && 1 <= w.s.cap && |w.s.cache| <= w.s.cap;
    hide Contiguous, Rebase, Store;
    StoreAccounted(w, Rebase(w.s), x, Next(w, NewSample(Some(x))));
  }

  lemma LookAccounted(w: World)
    requires Valid(w)
    ensures Accounted(Next(w, Look))
  {
    hide Chosen, Bytes;
    if w.s.cache != [] {
      ChosenAppend(w.log, w.fates, Pulled, Pulled);
      ChosenAppend(w.log, w.fates, Pulled, Dropped);
      assert w.s.cache[0].sample == w.log[|w.fates|];
    }
  }

  lemma StepKeepsValid(w: World, e: Event)
    requires Valid(w) && Enabled(w, e)
    ensures Valid(Next(w, e))
  {
    hide Chosen, Bytes, Rebase;
    match e
    case NewSample(x) =>
      RebaseKeeps(w.s);
      if x.Some? {
        SampleAccounted(w, x.value);
        StoreContiguous(Rebase(w.s), x.value);
      }
    case Look => LookAccounted(w);
    case _ =>
  }

  function Fresh(cap: nat): World
  {
    World(Sink(cap, [], 0, false, false, false, Stat(0, 0, 0, 0)), Away, [], [], [])
  }

  ghost predicate Run(w: World, es: seq<Event>, w': World)
    decreases |es|
  {
    if es == [] then w == w' else 1 <= w.s.cap && Enabled(w, es[0]) && Run(Next(w, es[0]), es[1..], w')
  }

  lemma {:induction false} RunKeepsValid(w: World, es: seq<Event>, w': World)
    requires Valid(w) && Run(w, es, w')
    ensures Valid(w')
    decreases |es|
  {
    hide Valid, Next, Enabled;
    if es != [] {
      StepKeepsValid(w, es[0]);
      RunKeepsValid(Next(w, es[0]), es[1..], w');
    }
  }

  lemma {:induction false} ChosenSplit(log: seq<Sample>, fates: seq<Fate>)
    requires |fates| <= |log|
    ensures |Chosen(log, fates, Pulled)| + |Chosen(log, fates, Dropped)| == |fates|
  {
    if fates != [] { ChosenSplit(log, fates[..|fates| - 1]); }
  }

  /** The end is recorded exactly when it has come. */
  lemma {:induction false} EndIsRecorded(w: World, es: seq<Event>, w': World)
    requires Run(w, es, w')
    ensures w'.s.eos <==> w.s.eos || Eos in es
    decreases |es|
  {
    if es != [] {
      EndIsRecorded(Next(w, es[0]), es[1..], w');
      assert es == [es[0]] + es[1..];
    }
  }

  /** A sample is dropped only for a full ring, and for a sample that comes: the ring then stays full. */
  lemma OnlyFullRingsDrop(w: World, e: Event)
    requires Valid(w) && Enabled(w, e)
    ensures var n := Next(w, e);
            && |Chosen(n.log, n.fates, Dropped)| - |Chosen(w.log, w.fates, Dropped)| ==
               (if e.NewSample? && e.sample.Some? && |w.s.cache| == w.s.cap then 1 else 0)
            && n.log == (if e.NewSample? && e.sample.Some? then w.log + [e.sample.value] else w.log)
  {
    hide Bytes, Rebase;
    var n := Next(w, e);
    if n.log != w.log { ChosenPrefix(w.log, [e.sample.value], w.fates, Dropped); }
    if |n.fates| > |w.fates| { ChosenAppend(n.log, w.fates, n.fates[|w.fates|], Dropped); }
  }

  /** What a puller that looks gets: the oldest sample, else null at the end of the stream, else it sleeps. */
  function Served(w: World): World
  {
    if w.s.cache != [] then
      w.(puller := Away, s := w.s.(cache := w.s.cache[1..]), fates := w.fates + [Pulled],
         returned := w.returned + [w.s.cache[0].sample])
    else w.(puller := if w.s.eos then Away else Asleep)
  }

  /** A pull is served at once, or sleeps; a sleeper can wake by a channel exactly if that has a token, takes
      it, and is served then; one that is cancelled has got nothing, and at most its tokens are lost. */
  lemma PullsAreServed(w: World, bySample: bool, byEos: bool)
    requires 1 <= w.s.cap
    ensures w.puller.Away? ==>
              Enabled(w, Pull) && Enabled(Next(w, Pull), Look) && Next(Next(w, Pull), Look) == Served(w)
    ensures Enabled(w, Wake(bySample)) <==>
            w.puller.Asleep? && if bySample then w.s.sampleNotified else w.s.eosNotified
    ensures Enabled(w, Wake(bySample)) ==>
              var s := w.s.(sampleNotified := w.s.sampleNotified && !bySample,
                            eosNotified := w.s.eosNotified && bySample);
              Enabled(Next(w, Wake(bySample)), Look) && Next(Next(w, Wake(bySample)), Look) == Served(w.(s := s))
    ensures w.puller.Asleep? ==>
              Enabled(w, Cancel(bySample, byEos)) &&
              Next(w, Cancel(bySample, byEos)) ==
              w.(puller := Away, s := w.s.(sampleNotified := !bySample && w.s.sampleNotified,
                                           eosNotified := !byEos && w.s.eosNotified))
  {
  }

  /** Over every run: received = pulled + dropped + cached, and the counters are those of the log,
      modulo their widths; what was returned is what was pulled, in arrival order; the next pull
      returns the oldest sample that has not left, and null only at the end of the stream with
      nothing cached; and no sleeping puller is stranded. */
  lemma SinkOverRuns(cap: nat, es: seq<Event>, w: World)
    requires 1 <= cap <= MAX_CAPACITY && Run(Fresh(cap), es, w)
    ensures |w.fates| + |w.s.cache| == |w.log|
    ensures |w.log| == |w.returned| + |Chosen(w.log, w.fates, Dropped)| + |w.s.cache|
    ensures Tallied(w)
    ensures w.returned == Chosen(w.log, w.fates, Pulled)
    ensures TryTake(w.s).1 ==
            if |w.fates| < |w.log| then Returned(Some(w.log[|w.fates|])) else if w.s.eos then Returned(None)
                else Nothing
    ensures w.puller.Asleep? && (|w.fates| < |w.log| || w.s.eos) ==> Enabled(w, Wake(true)) || Enabled(w, Wake(false))
    ensures Contiguous(w.s)
    ensures w.s.eos <==> Eos in es
  {
    EndIsRecorded(Fresh(cap), es, w);
    assert Valid(Fresh(cap)) by { assert Bytes([]) == 0; }
    RunKeepsValid(Fresh(cap), es, w);
    ChosenSplit(w.log, w.fates);
  }

  // ---- The sink itself ---------------------------------------------------------------------

  class SinkState {
    const cap: nat
    var cache: seq<Slot>
    var seqNo: nat
    var eos: bool
    var sampleNotified: bool
    var eosNotified: bool
    var stat: Stat

    ghost function View(): Sink
      reads this
    {
      Sink(cap, cache, seqNo, eos, sampleNotified, eosNotified, stat)
    }

    constructor (cap: nat)
      requires 1 <= cap <= MAX_CAPACITY
      ensures View() == Fresh(cap).s && Contiguous(View())
    {
      this.cap, cache, seqNo, eos := cap, [], 0, false;
      sampleNotified, eosNotified, stat := false, false, Stat(0, 0, 0, 0);
    }

    method OnEndOfStream()
      modifies this`eos, this`eosNotified
      ensures View() == OnEos(old(View()))
      ensures eos && eosNotified
    {
      eos, eosNotified := true, true;
    }

    /** `v.first -= offset` over the ring, then on the counter. */
    method RebaseInPlace()
      requires Contiguous(View())
      modifies this`cache, this`seqNo
      ensures View() == Rebase(old(View())) && Contiguous(View()) && seqNo < MAX_SEQ
    {
      hide Rebase, Contiguous;
      RebaseKeeps(View());
      if seqNo == MAX_SEQ {
        ghost var before := View();
        RebaseSubtracts(before);
        var offset := if cache == [] then MAX_SEQ else cache[0].seqNo;
        for i := 0 to |cache|
          invariant View() == before.(cache := cache) && |cache| == |before.cache|
          invariant forall j :: 0 <= j < |cache| ==>
                      cache[j] == if j < i then before.cache[j].(seqNo := before.cache[j].seqNo - offset)
                          else before.cache[j]
        {
          cache := cache[i := cache[i].(seqNo := cache[i].seqNo - offset)];
        }
        seqNo := seqNo - offset;
        assert cache == Rebase(before).cache;
      }
    }

    method OnSample(sample: Option<Sample>)
      requires Contiguous(View())
      modifies this`cache, this`seqNo, this`sampleNotified, this`stat
      ensures View() == OnNewSample(old(View()), sample) && Contiguous(View())
      ensures sample.Some? ==> cache != [] && cache[|cache| - 1].sample == sample.value && sampleNotified
    {
      hide Rebase, Contiguous;
      RebaseInPlace();
      if sample.Some? {
        var x := sample.value;
        StoreContiguous(View(), x);
        stat := stat.(receivedBytes := (stat.receivedBytes + x.size) % LONG,
            receivedSamples := (stat.receivedSamples + 1) % WORD);
        var room := cache;
        if |cache| == cap {
          stat := stat.(droppedBytes := (stat.droppedBytes + cache[0].sample.size) % LONG,
                        droppedSamples := (stat.droppedSamples + 1) % WORD);
          room := cache[1..];
        }
        cache := room + [Slot(seqNo, x)];
        seqNo := seqNo + 1;
        sampleNotified := true;
      }
    }

    method Take() returns (answer: Answer)
      requires Contiguous(View())
      modifies this`cache
      ensures (View(), answer) == TryTake(old(View())) && Contiguous(View())
    {
      if cache != [] {
        answer := Returned(Some(cache[0].sample));
        cache := cache[1..];
      } else if eos {
        answer := Returned(None);
      } else {
        answer := Nothing;
      }
    }
  }
}
