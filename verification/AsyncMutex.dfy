/** The coroutine mutex: a busy flag, and one unbuffered channel per waiting call of `accquire`,
    all written to on release. */
module AsyncMutex {

  /** One call of `accquire`, from its start to its end; it owns one channel. */
  type Call = nat

  datatype Stage =
    | Looking      // about to enter the critical section
    | Suspended    // reading its own channel
    | Holding      // returned true, not yet released
    | Finished     // released, or returned false

  /** `waiting` are the registered channels in order; `writes[c]` counts the detached writes to
      the channel of `c` that no read has met yet. */
  datatype Mutex = Mutex(busy: bool, waiting: seq<Call>, writes: map<Call, nat>, stages: map<Call, Stage>)

  function Without(s: seq<Call>, c: Call): (r: seq<Call>)
    ensures c !in r && forall d :: d in s && d != c ==> d in r
    ensures forall d :: d in r ==> d in s
  {
    if s == [] then []
    else if s[0] == c then Without(s[1..], c)
    else [s[0]] + Without(s[1..], c)
  }

  function Pending(m: Mutex, c: Call): nat { if c in m.writes then m.writes[c] else 0 }

  datatype Event =
    | Start(c: Call)
    | Look(c: Call)
    | Wake(c: Call)                     // the read meets a pending write
    | Cancel(c: Call, met: bool)        // the closer ends the read, before or after it met a write
    | Release(c: Call)                  // only a holder releases

  predicate Enabled(m: Mutex, e: Event)
  {
    match e
    case Start(c) => c !in m.stages
    case Look(c) => c in m.stages && m.stages[c].Looking?
    case Wake(c) => c in m.stages && m.stages[c].Suspended? && Pending(m, c) > 0
    case Cancel(c, met) => c in m.stages && m.stages[c].Suspended? && (met ==> Pending(m, c) > 0)
    case Release(c) => c in m.stages && m.stages[c].Holding?
  }

  /** The critical section of `accquire` for a call that has or has not registered its channel. */
  function Acquire(m: Mutex, c: Call): (Mutex, bool)
  {
    if !m.busy then (m.(busy := true, waiting := Without(m.waiting, c)), true)
    else if c in m.waiting then (m, false)
    else (m.(waiting := m.waiting + [c]), false)
  }

  /** Free the mutex and start one write to every registered channel. */
  function Free(m: Mutex): Mutex
  {
    m.(busy := false, writes := Spawn(m.writes, m.waiting))
  }

  function Spawn(writes: map<Call, nat>, waiting: seq<Call>): (w: map<Call, nat>)
    ensures forall c :: c in waiting ==> c in w && w[c] > 0
    ensures forall c :: c in writes ==> c in w && w[c] >= writes[c]
  {
    if waiting == [] then writes
    else
      var w := Spawn(writes, waiting[..|waiting| - 1]);
      var c := waiting[|waiting| - 1];
      w[c := (if c in w then w[c] else 0) + 1]
  }

  function Next(m: Mutex, e: Event): Mutex
    requires Enabled(m, e)
  {
    match e
    case Start(c) => m.(stages := m.stages[c := Looking])
    case Look(c) =>
      var (m', got) := Acquire(m, c);
      m'.(stages := m.stages[c := if got then Holding else Suspended])
    case Wake(c) => m.(writes := m.writes[c := Pending(m, c) - 1], stages := m.stages[c := Looking])
    case Cancel(c, met) =>
      m.(writes := if met then m.writes[c := Pending(m, c) - 1] else m.writes, stages := m.stages[c := Finished])
    case Release(c) => Free(m).(stages := m.stages[c := Finished])
  }

  ghost predicate Holds(m: Mutex, c: Call) { c in m.stages && m.stages[c].Holding? }

  ghost predicate Sleeps(m: Mutex, c: Call) { c in m.stages && m.stages[c].Suspended? }

  ghost predicate Valid(m: Mutex)
  {
    && (forall c, d :: Holds(m, c) && Holds(m, d) ==> c == d)
    && (m.busy <==> exists c :: Holds(m, c))
    && (forall c :: Sleeps(m, c) ==> c in m.waiting)
    && (forall c :: Sleeps(m, c) && !m.busy ==> Pending(m, c) > 0)
    && Distinct(m.waiting)
  }

  ghost predicate Distinct(s: seq<Call>) { forall i, j :: 0 <= i < j < |s| ==> s[i] != s[j] }

  lemma {:induction false} WithoutKeepsDistinct(s: seq<Call>, c: Call)
    requires Distinct(s)
    ensures Distinct(Without(s, c))
  {
    if s != [] {
      WithoutKeepsDistinct(s[1..], c);
      assert s[0] !in Without(s[1..], c);
    }
  }

  lemma StepKeepsValid(m: Mutex, e: Event)
    requires Valid(m) && Enabled(m, e)
    ensures Valid(Next(m, e))
  {
    hide Without, Spawn;
    var n := Next(m, e);
    match e
    case Start(c) => OthersKeepStage(m, n, c);
    case Look(c) =>
      OthersKeepStage(m, n, c);
      if !m.busy {
        assert Holds(n, c);
        WithoutKeepsDistinct(m.waiting, c);
      }
    case Wake(c) => OthersKeepStage(m, n, c);
    case Cancel(c, met) => OthersKeepStage(m, n, c);
    case Release(c) =>
      assert Holds(m, c);
      OthersKeepStage(m, n, c);
  }

  lemma OthersKeepStage(m: Mutex, n: Mutex, c: Call)
    requires forall d :: d != c && d in m.stages ==> d in n.stages && n.stages[d] == m.stages[d]
    requires forall d :: d != c && d in n.stages ==> d in m.stages
    ensures forall d :: d != c ==> (Holds(n, d) <==> Holds(m, d)) && (Sleeps(n, d) <==> Sleeps(m, d))
  {
  }

  const FREE := Mutex(false, [], map[], map[])

  ghost predicate Run(m: Mutex, es: seq<Event>, m': Mutex)
    decreases |es|
  {
    if es == [] then m == m' else Enabled(m, es[0]) && Run(Next(m, es[0]), es[1..], m')
  }

  lemma {:induction false} RunKeepsValid(m: Mutex, es: seq<Event>, m': Mutex)
    requires Valid(m) && Run(m, es, m')
    ensures Valid(m')
    decreases |es|
  {
    hide Valid, Next, Enabled;
    if es != [] {
      StepKeepsValid(m, es[0]);
      RunKeepsValid(Next(m, es[0]), es[1..], m');
    }
  }

  /** Any number of calls and cancellations: at most one holder, the flag says whether there is
      one, and while the mutex is free every suspended call has a write on its own channel, so its
      read is bound to return. */
  lemma MutualExclusionWithoutLostWakeup(es: seq<Event>, m: Mutex)
    requires Run(FREE, es, m)
    ensures forall c, d :: Holds(m, c) && Holds(m, d) ==> c == d
    ensures m.busy <==> exists c :: Holds(m, c)
    ensures forall c :: Sleeps(m, c) && !m.busy ==> Enabled(m, Wake(c))
  {
    RunKeepsValid(FREE, es, m);
  }

  /** Waking is not spurious for ever: a woken call that finds the mutex free gets it, and leaves
      the list of registered channels. */
  lemma WokenCallAcquires(es: seq<Event>, m: Mutex, c: Call)
    requires Run(FREE, es, m) && Sleeps(m, c) && !m.busy
    ensures Enabled(m, Wake(c))
    ensures var n := Next(m, Wake(c));
              Enabled(n, Look(c)) && Holds(Next(n, Look(c)), c) && c !in Next(n, Look(c)).waiting
  {
    MutualExclusionWithoutLostWakeup(es, m);
  }

  /** A call that finds the mutex free gets it at once; one that finds it busy is registered, once, and
      sleeps. */
  lemma NewCallGetsItOrSleeps(es: seq<Event>, m: Mutex, c: Call)
    requires Run(FREE, es, m) && c !in m.stages
    ensures Enabled(m, Start(c)) && Enabled(Next(m, Start(c)), Look(c))
    ensures var n := Next(Next(m, Start(c)), Look(c));
            && n.busy && n.writes == m.writes
            && (if m.busy then Sleeps(n, c) && multiset(n.waiting)[c] == 1 else Holds(n, c) && c !in n.waiting)
            && forall d :: d != c ==>
                 (d in n.stages <==> d in m.stages) && (d in m.stages ==> n.stages[d] == m.stages[d])
  {
    RunKeepsValid(FREE, es, m);
    var n := Next(Next(m, Start(c)), Look(c));
    if m.busy && c in m.waiting { OnceOnly(m.waiting, c); }
  }

  lemma {:induction false} OnceOnly(s: seq<Call>, c: Call)
    requires Distinct(s) && c in s
    ensures multiset(s)[c] == 1
  {
    assert s == [s[0]] + s[1..];
    if s[0] != c { OnceOnly(s[1..], c); }
  }

  /** A cancelled call is over; it changes nothing for the others. */
  lemma CancelEndsTheCall(m: Mutex, c: Call, met: bool)
    requires Enabled(m, Cancel(c, met))
    ensures var n := Next(m, Cancel(c, met));
            && n.stages == m.stages[c := Finished] && n.busy == m.busy && n.waiting == m.waiting
            && Pending(n, c) == Pending(m, c) - (if met then 1 else 0)
            && forall d :: d != c ==> Pending(n, d) == Pending(m, d)
  {
  }

  // ---- Writes and reads -----------------------------------------------------------------------

  /** How many releases of a run found the call registered. */
  function Writes(m: Mutex, es: seq<Event>, c: Call): nat
    decreases |es|
  {
    if es == [] || !Enabled(m, es[0]) then 0
    else Writes(Next(m, es[0]), es[1..], c) + if es[0].Release? && c in m.waiting then 1 else 0
  }

  /** How many writes the call has read. */
  function Reads(es: seq<Event>, c: Call): nat
  {
    if es == [] then 0
    else Reads(es[1..], c) + if es[0] == Wake(c) || es[0] == Cancel(c, true) then 1 else 0
  }

  function Count(writes: map<Call, nat>, c: Call): nat { if c in writes then writes[c] else 0 }

  /** A release writes once to a channel for each time that it is registered, and to no other. */
  lemma {:induction false} SpawnsEach(writes: map<Call, nat>, waiting: seq<Call>, c: Call)
    ensures Count(Spawn(writes, waiting), c) == Count(writes, c) + multiset(waiting)[c]
  {
    if waiting != [] {
      var n := |waiting| - 1;
      SpawnsEach(writes, waiting[..n], c);
      assert waiting == waiting[..n] + [waiting[n]];
    }
  }

  /** Over every run, the writes that a call has not read are those of the releases that found it
      registered, less those that it has read: none is lost and none is read twice. */
  lemma {:induction false} WritesAreReadOnce(m: Mutex, es: seq<Event>, m': Mutex, c: Call)
    requires Valid(m) && Run(m, es, m')
    ensures Pending(m', c) + Reads(es, c) == Pending(m, c) + Writes(m, es, c)
    decreases |es|
  {
    hide Valid, Without, Spawn;
    if es != [] {
      StepKeepsValid(m, es[0]);
      if es[0].Release? {
        assert Distinct(m.waiting) by { WaitingDistinct(m); }
        SpawnsEach(m.writes, m.waiting, c);
        if c in m.waiting { OnceOnly(m.waiting, c); }
      }
      WritesAreReadOnce(Next(m, es[0]), es[1..], m', c);
    }
  }

  lemma WaitingDistinct(m: Mutex)
    requires Valid(m)
    ensures Distinct(m.waiting)
  {
  }

  // ---- The mutex itself --------------------------------------------------------------------

  class MutexState {
    var busy: bool
    var waiting: seq<Call>
    var writes: map<Call, nat>

    ghost function View(stages: map<Call, Stage>): Mutex
      reads this
    {
      Mutex(busy, waiting, writes, stages)
    }

    constructor ()
      ensures View(map[]) == FREE
    {
      busy, waiting, writes := false, [], map[];
    }

    /** `added` is the caller's own record of whether it registered its channel. */
    method TryAcquire(c: Call, added: bool, ghost stages: map<Call, Stage>) returns (success: bool, nowAdded: bool)
      requires added == (c in waiting)
      modifies this`busy, this`waiting
      ensures (View(stages), success) == Acquire(old(View(stages)), c)
      ensures success <==> !old(busy)
      ensures busy && forall d :: d != c ==> (d in waiting <==> d in old(waiting))
      ensures (nowAdded && c in waiting) || (success && c !in waiting)
    {
      success, nowAdded := false, added;
      if !busy {
        busy, success := true, true;
        if added {
          waiting := Without(waiting, c);
        } else {
          AbsentUnchanged(waiting, c);
        }
      } else if !added {
        nowAdded := true;
        waiting := waiting + [c];
      }
    }

    method Release(ghost stages: map<Call, Stage>)
      modifies this`busy, this`writes
      ensures View(stages) == Free(old(View(stages)))
      ensures !busy && forall c :: Count(writes, c) == Count(old(writes), c) + multiset(waiting)[c]
    {
      busy := false;
      var w := writes;
      for i := 0 to |waiting|
        invariant !busy && writes == old(writes)
        invariant w == Spawn(writes, waiting[..i])
      {
        var c := waiting[i];
        SpawnStep(writes, waiting, i);
        w := w[c := (if c in w then w[c] else 0) + 1];
      }
      assert waiting[..|waiting|] == waiting;
      forall c ensures Count(w, c) == Count(writes, c) + multiset(waiting)[c] { SpawnsEach(writes, waiting, c); }
      writes := w;
    }
  }

  lemma SpawnStep(writes: map<Call, nat>, waiting: seq<Call>, i: nat)
    requires i < |waiting|
    ensures var w := Spawn(writes, waiting[..i]);
            Spawn(writes, waiting[..i + 1]) == w[waiting[i] := (if waiting[i] in w then w[waiting[i]] else 0) + 1]
  {
    assert waiting[..i + 1][..i] == waiting[..i];
  }

  lemma {:induction false} AbsentUnchanged(s: seq<Call>, c: Call)
    requires c !in s
    ensures Without(s, c) == s
  {
    if s != [] { AbsentUnchanged(s[1..], c); }
  }
}
