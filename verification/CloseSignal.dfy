/** The state of one close signal: closed, stopped, its timeout and timer, and the one-slot
    channels of those who wait for it. Each function is one critical section. */
module CloseSignal {

  /** Durations and instants are in clock ticks. */
  datatype Timer = NoTimer | Timer(expiry: int)

  datatype Node = Node(
    closed: bool, isTimeout: bool, stopped: bool,
    timeout: int, stopTimeout: int, timer: Timer,
    waiters: seq<nat>, stopWaiters: seq<nat>)

  const NEW_NODE := Node(false, false, false, 0, 0, NoTimer, [], [])

  predicate Armed(n: Node) { n.timer.Timer? && n.timeout != 0 }

  function SetTimeout(n: Node, dur: int, now: int): Node
  {
    if n.closed || n.timeout == dur then n
    else if n.timer.NoTimer? || dur == 0 then n.(timeout := dur)
    else if n.timeout == 0 then n.(timeout := dur, timer := Timer(now + dur))
    else n.(timeout := dur, timer := Timer(n.timer.expiry - n.timeout + dur))
  }

  function CloseSelf(n: Node, isTimeout: bool): Node
  {
    if n.closed then n
    else n.(closed := true, stopped := false, isTimeout := isTimeout, timeout := 0, waiters := [], stopWaiters := [])
  }

  function StopSelf(n: Node, stopTimer: bool, now: int): Node
  {
    if n.closed || n.stopped then n
    else
      var m := n.(stopped := true);
      if !stopTimer then m
      else if n.timer.Timer? && n.timeout > 0 then
        if n.timer.expiry > now then SetTimeout(m.(stopTimeout := n.timer.expiry - now), 0, now) else m
      else SetTimeout(m.(stopTimeout := n.timeout), 0, now)
  }

  function ResumeSelf(n: Node, now: int): Node
  {
    if !n.stopped then n
    else
      var m := n.(stopped := false, stopWaiters := []);
      if n.stopTimeout > 0 then SetTimeout(m, n.stopTimeout, now).(stopTimeout := 0) else m
  }

  function InitTimer(n: Node, now: int): Node
  {
    if n.closed || n.timer.Timer? then n
    else n.(timer := Timer(if n.timeout != 0 then now + n.timeout else 0))
  }

  /** The new waiter, if the signal takes one. */
  function AddWaiter(n: Node, w: nat): Node { if n.closed then n else n.(waiters := n.waiters + [w]) }

  function AddStopWaiter(n: Node, w: nat): Node { if !n.stopped then n else n.(stopWaiters := n.stopWaiters + [w]) }

  // ---- Time ----------------------------------------------------------------------------------

  /** An armed timer with time left, or a timeout that no timer counts down. */
  predicate Pausable(n: Node, now: int) { n.timer.Timer? && n.timeout > 0 ==> n.timer.expiry > now }

  datatype Event = Stop(stopTimer: bool) | Resume | Init | Tick(d: nat) | Retime(dur: int) | Shut(isTimeout: bool)

  function NodeNext(n: Node, e: Event, now: int): Node
  {
    match e
    case Stop(stopTimer) => StopSelf(n, stopTimer, now)
    case Resume => ResumeSelf(n, now)
    case Init => InitTimer(n, now)
    case Tick(_) => n
    case Retime(dur) => SetTimeout(n, dur, now)
    case Shut(isTimeout) => CloseSelf(n, isTimeout)
  }

  /** A signal in time: when its timer last went from unarmed to armed, and for how long it has
      been armed in all. */
  datatype Clocked = Clocked(n: Node, now: int, armedAt: int, used: nat)

  function Next(c: Clocked, e: Event): Clocked
  {
    var n := NodeNext(c.n, e, c.now);
    Clocked(n,
            if e.Tick? then c.now + e.d else c.now,
            if !Armed(c.n) && Armed(n) then c.now else c.armedAt,
            if e.Tick? && Armed(c.n) then c.used + e.d else c.used)
  }

  function Run(c: Clocked, es: seq<Event>): Clocked
    decreases |es|
  {
    if es == [] then c else Run(Next(c, es[0]), es[1..])
  }

  /** Over every history, an armed timer expires its timeout after the instant it was armed, even
      when the timeout was changed in between. */
  lemma {:induction false} ExpiryCountsFromArming(c: Clocked, es: seq<Event>)
    requires Armed(c.n) ==> c.n.timer.expiry == c.armedAt + c.n.timeout
    ensures var c' := Run(c, es); Armed(c'.n) ==> c'.n.timer.expiry == c'.armedAt + c'.n.timeout
    decreases |es|
  {
    if es != [] { ExpiryCountsFromArming(Next(c, es[0]), es[1..]); }
  }

  /** The time budget not yet used. */
  function Remaining(c: Clocked): int
  {
    if Armed(c.n) then c.n.timer.expiry - c.now
    else if c.n.timeout != 0 then c.n.timeout
    else c.n.stopTimeout
  }

  predicate Paced(n: Node)
  {
    && n.timeout >= 0 && n.stopTimeout >= 0
    && (n.stopTimeout > 0 ==> n.stopped && n.timeout == 0)
    && (n.closed ==> !n.stopped && n.timeout == 0)
  }

  predicate Pacing(e: Event) { e.Stop? || e.Resume? || e.Init? || e.Tick? }

  /** Pausing conserves the budget: time spent armed plus time remaining never changes, through
      any stops, resumes, late timer starts and waits. */
  lemma {:induction false} PausingConservesBudget(c: Clocked, es: seq<Event>)
    requires Paced(c.n) && forall i :: 0 <= i < |es| ==> Pacing(es[i])
    ensures var c' := Run(c, es); Paced(c'.n) && c'.used + Remaining(c') == c.used + Remaining(c)
    decreases |es|
  {
    if es != [] {
      assert Pacing(es[0]);
      PausingConservesBudget(Next(c, es[0]), es[1..]);
    }
  }

  predicate AllPacing(es: seq<Event>) { forall i :: 0 <= i < |es| ==> Pacing(es[i]) }

  /** The armed time that a timeout buys: what was used of it and what remains, after a history. */
  function Bought(c: Clocked, dur: int, es: seq<Event>): int
  {
    var c' := Run(Next(c, Retime(dur)), es);
    c'.used - c.used + Remaining(c')
  }

  /** Setting a timeout on an open signal that has none buys exactly that much armed time, through
      every history, just if the timeout is not negative. Pausing an armed timer of a negative
      timeout forgets the time used, and resuming does not bring the timeout back. */
  lemma TimeoutIsSpentOnlyWhileArmed(c: Clocked, dur: int)
    requires Paced(c.n) && !c.n.closed && c.n.timeout == 0 && c.n.stopTimeout == 0
    ensures (forall es :: AllPacing(es) ==> Bought(c, dur, es) == dur) <==> dur >= 0
  {
    if dur >= 0 {
      forall es | AllPacing(es) ensures Bought(c, dur, es) == dur {
        PausingConservesBudget(Next(c, Retime(dur)), es);
      }
    } else {
      NegativeTimeoutIsLost(c, dur);
      assert AllPacing([Resume, Init, Tick(1), Stop(true)]);
    }
  }

  lemma NegativeTimeoutIsLost(c: Clocked, dur: int)
    requires !c.n.closed && c.n.timeout == 0 && c.n.stopTimeout == 0 && dur < 0
    ensures Bought(c, dur, [Resume, Init, Tick(1), Stop(true)]) == dur + 1
  {
    var es := [Resume, Init, Tick(1), Stop(true)];
    var c1 := Next(c, Retime(dur));
    var c2 := Next(c1, Resume);
    var c3 := Next(c2, Init);
    var c4 := Next(c3, Tick(1));
    var c5 := Next(c4, Stop(true));
    assert es[1..] == [Init, Tick(1), Stop(true)];
    assert es[1..][1..] == [Tick(1), Stop(true)];
    assert es[1..][1..][1..] == [Stop(true)];
    assert Run(c4, [Stop(true)]) == Run(c5, []) == c5;
    assert Run(c3, es[1..][1..]) == c5;
    assert Run(c2, es[1..]) == c5;
  }

  /** Neither a resume nor a new timeout. */
  predicate Quiet(es: seq<Event>) { forall i :: 0 <= i < |es| ==> !es[i].Resume? && !es[i].Retime? }

  lemma {:induction false} NoTimeoutNoUse(c: Clocked, es: seq<Event>)
    requires c.n.timeout == 0 && (c.n.stopped || c.n.closed) && Quiet(es)
    ensures var c' := Run(c, es);
            && c'.used == c.used && c'.n.timeout == 0 && (c'.n.stopped || c'.n.closed)
            && c'.n.stopTimeout == c.n.stopTimeout
    decreases |es|
  {
    if es != [] {
      assert !es[0].Resume? && !es[0].Retime?;
      NoTimeoutNoUse(Next(c, es[0]), es[1..]);
    }
  }

  /** A stop that pauses: on an open signal that still runs, a timer with time left is stopped and its time left put
      away, and so is a timeout that no timer counts down; then no time is used through any history, until
      a resume or a new timeout. A timer that has run out is let be. */
  lemma StopPausesTheTimer(c: Clocked, es: seq<Event>)
    requires !c.n.closed && !c.n.stopped && Quiet(es)
    ensures var c' := Next(c, Stop(true));
            && c'.n.stopped && !c'.n.closed && c'.used == c.used && c'.now == c.now
            && c'.n.waiters == c.n.waiters && c'.n.stopWaiters == c.n.stopWaiters && c'.n.timer == c.n.timer
            && (Pausable(c.n, c.now) ==>
                  && c'.n.timeout == 0
                  && c'.n.stopTimeout ==
                     (if Armed(c.n) && c.n.timeout > 0 then c.n.timer.expiry - c.now else c.n.timeout)
                  && Run(c', es).used == c.used)
            && (!Pausable(c.n, c.now) ==> c'.n == c.n.(stopped := true))
  {
    if Pausable(c.n, c.now) { NoTimeoutNoUse(Next(c, Stop(true)), es); }
  }

  /** A stop that pauses nothing leaves the time alone, and a stop of a stopped or closed signal does
      nothing at all. */
  lemma StopLeavesTheTimer(c: Clocked, stopTimer: bool)
    ensures !c.n.closed && !c.n.stopped ==> Next(c, Stop(false)) == c.(n := c.n.(stopped := true))
    ensures c.n.closed || c.n.stopped ==> Next(c, Stop(stopTimer)) == c
  {
  }

  /** Neither a resume nor a close. */
  predicate StaysStopped(es: seq<Event>) { forall i :: 0 <= i < |es| ==> !es[i].Resume? && !es[i].Shut? }

  lemma {:induction false} StopKeepsItsTime(c: Clocked, es: seq<Event>)
    requires c.n.stopped && !c.n.closed && StaysStopped(es)
    ensures var n := Run(c, es).n; n.stopped && !n.closed && n.stopTimeout == c.n.stopTimeout
    decreases |es|
  {
    if es != [] {
      assert !es[0].Resume? && !es[0].Shut?;
      StopKeepsItsTime(Next(c, es[0]), es[1..]);
    }
  }

  /** A timeout set on a stopped signal survives the resume exactly if the stop had put no time away;
      else the resume brings back the old time, whatever was set meanwhile, and however often. */
  lemma TimeoutSetWhileStopped(c: Clocked, es: seq<Event>, dur: int)
    requires c.n.stopped && !c.n.closed && StaysStopped(es)
    ensures var c' := Next(Next(Run(c, es), Retime(dur)), Resume);
            c'.n.timeout == if c.n.stopTimeout > 0 then c.n.stopTimeout else dur
  {
    StopKeepsItsTime(c, es);
  }

  // ---- The signal itself -----------------------------------------------------------------------

  /** A channel of one slot and no payload. */
  class Chan {
    const id: nat
    var full: bool

    constructor (id: nat)
      ensures this.id == id && !full
    {
      this.id, full := id, false;
    }

    method TryWrite() returns (ok: bool)
      modifies this
      ensures ok == !old(full) && full
    {
      ok := !full;
      full := true;
    }
  }

  function Ids(s: seq<Chan>): seq<nat> { seq(|s|, i requires 0 <= i < |s| => s[i].id) }

  ghost predicate Distinct(s: seq<Chan>) { forall i, j :: 0 <= i < j < |s| ==> s[i] != s[j] }

  /** Write to every channel of a list, oldest first; no write fails, so the throws beside the
      writes are never reached. */
  method SignalAll(waiters: seq<Chan>)
    requires Distinct(waiters) && forall w :: w in waiters ==> !w.full
    modifies set w | w in waiters
    ensures forall w :: w in waiters ==> w.full
  {
    var rest := waiters;
    ghost var k := 0;
    while rest != []
      invariant k <= |waiters| && rest == waiters[k..]
      invariant forall i :: 0 <= i < k ==> waiters[i].full
      invariant forall i :: k <= i < |waiters| ==> !waiters[i].full
      decreases |rest|
    {
      assert rest[0] == waiters[k];
      var written := rest[0].TryWrite();
      assert written;
      rest := rest[1..];
      k := k + 1;
    }
    assert forall w :: w in waiters ==> exists i :: 0 <= i < |waiters| && waiters[i] == w;
  }

  class SignalState {
    var closed: bool
    var isTimeout: bool
    var stopped: bool
    var timeout: int
    var stopTimeout: int
    var timer: Timer
    var waiters: seq<Chan>
    var stopWaiters: seq<Chan>

    ghost function View(): Node
      reads this
    {
      Node(closed, isTimeout, stopped, timeout, stopTimeout, timer, Ids(waiters), Ids(stopWaiters))
    }

    /** Every registered channel is empty and registered once; a closed signal has none. */
    ghost predicate Valid()
      reads this, set w | w in waiters, set w | w in stopWaiters
    {
      && Distinct(waiters) && Distinct(stopWaiters) && (forall w :: w in waiters ==> w !in stopWaiters)
      && (forall w :: w in waiters ==> !w.full) && (forall w :: w in stopWaiters ==> !w.full)
      && (closed ==> waiters == [] && stopWaiters == [] && !stopped && timeout == 0)
      && (!stopped ==> stopWaiters == [])
    }

    constructor ()
      ensures Valid() && View() == NEW_NODE
    {
      closed, isTimeout, stopped, timeout, stopTimeout, timer := false, false, false, 0, 0, NoTimer;
      waiters, stopWaiters := [], [];
    }

    method Retime(dur: int, now: int)
      requires Valid()
      modifies this`timeout, this`timer
      ensures Valid() && View() == SetTimeout(old(View()), dur, now)
      ensures timeout == if closed then old(timeout) else dur
      ensures timer == if closed || dur == 0 || dur == old(timeout) || timer.NoTimer? then old(timer)
                       else if old(timeout) == 0 then Timer(now + dur)
                       else Timer(old(timer).expiry + (dur - old(timeout)))
    {
      if closed || timeout == dur { return; }
      var was := timeout;
      timeout := dur;
      if timer.Timer? && dur != 0 {
        timer := Timer(if was == 0 then now + dur else timer.expiry - was + dur);
      }
    }

    method Close(timedOut: bool)
      requires Valid()
      modifies this, set w | w in waiters, set w | w in stopWaiters
      ensures Valid() && View() == CloseSelf(old(View()), timedOut) && closed
      ensures old(closed) ==> View() == old(View())
      ensures !old(closed) ==> isTimeout == timedOut && !stopped && timeout == 0 && waiters == [] && stopWaiters == []
      ensures timer == old(timer) && stopTimeout == old(stopTimeout)
      ensures !old(closed) ==>
                (forall w :: w in old(waiters) ==> w.full) && (forall w :: w in old(stopWaiters) ==> w.full)
    {
      if closed { return; }
      closed, stopped, isTimeout, timeout := true, false, timedOut, 0;
      SignalAll(waiters);
      SignalAll(stopWaiters);
      waiters, stopWaiters := [], [];
    }

    method Stop(stopTimer: bool, now: int)
      requires Valid()
      modifies this`stopped, this`timeout, this`stopTimeout, this`timer
      ensures Valid() && View() == StopSelf(old(View()), stopTimer, now)
      ensures stopped <==> old(stopped) || !closed
      ensures old(closed || stopped) || !stopTimer ==> timeout == old(timeout) && stopTimeout == old(stopTimeout)
      ensures !old(closed || stopped) && stopTimer ==>
                if old(timer.Timer? && timeout > 0) then
                  if old(timer.expiry) > now then timeout == 0 && stopTimeout == old(timer.expiry) - now
                  else timeout == old(timeout) && stopTimeout == old(stopTimeout)
                else timeout == 0 && stopTimeout == old(timeout)
      ensures timer == old(timer)
    {
      if closed || stopped { return; }
      stopped := true;
      if stopTimer {
        if timer.Timer? && timeout > 0 {
          if timer.expiry > now {
            stopTimeout := timer.expiry - now;
            Retime(0, now);
          }
        } else {
          stopTimeout := timeout;
          Retime(0, now);
        }
      }
    }

    method Resume(now: int)
      requires Valid()
      modifies this`stopped, this`timeout, this`stopTimeout, this`timer, this`stopWaiters, set w | w in stopWaiters
      ensures Valid() && View() == ResumeSelf(old(View()), now)
      ensures !old(stopped) ==> View() == old(View())
      ensures old(stopped) ==>
                && !stopped && stopWaiters == []
                && (if old(stopTimeout) > 0 then stopTimeout == 0 && timeout == old(stopTimeout)
                    else stopTimeout == old(stopTimeout) && timeout == old(timeout) && timer == old(timer))
                && (old(stopTimeout) > 0 && old(timeout) == 0 && timer.Timer? ==> timer == Timer(now + timeout))
      ensures old(stopped) ==> forall w :: w in old(stopWaiters) ==> w.full
    {
      if !stopped { return; }
      SignalAll(stopWaiters);
      stopped, stopWaiters := false, [];
      if stopTimeout > 0 {
        Retime(stopTimeout, now);
        stopTimeout := 0;
      }
    }

    method StartTimer(now: int)
      requires Valid()
      modifies this`timer
      ensures Valid() && View() == InitTimer(old(View()), now)
      ensures timer == if closed || old(timer).Timer? then old(timer)
                       else Timer(if timeout != 0 then now + timeout else 0)
    {
      if closed || timer.Timer? { return; }
      timer := Timer(if timeout != 0 then now + timeout else 0);
    }

    method GetWaiter(id: nat) returns (w: Chan?)
      requires Valid()
      modifies this`waiters
      ensures Valid() && View() == AddWaiter(old(View()), id)
      ensures (w == null <==> closed) && waiters == if w == null then old(waiters) else old(waiters) + [w]
      ensures w != null ==> fresh(w) && w.id == id && w in waiters
    {
      if closed { return null; }
      w := new Chan(id);
      waiters := waiters + [w];
    }

    method GetStopWaiter(id: nat) returns (w: Chan?)
      requires Valid()
      modifies this`stopWaiters
      ensures Valid() && View() == AddStopWaiter(old(View()), id)
      ensures (w == null <==> !stopped) && stopWaiters == if w == null then old(stopWaiters) else old(stopWaiters) + [w]
      ensures w != null ==> fresh(w) && w.id == id && w in stopWaiters
    {
      if !stopped { return null; }
      w := new Chan(id);
      stopWaiters := stopWaiters + [w];
    }
  }
}
