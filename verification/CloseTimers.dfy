/** The timers of the tree: what a due timer does, and who gets one. */
module CloseTimers {
  import opened Wrappers
  import S = CloseSignal
  import opened CloseTree

  /** When a timer's task gets to look: the timeout may have been taken away meanwhile, and nothing comes of
      it; else the signal is to be closed with the timeout status. */
  lemma RingLooks(s: Tree, t: nat, n: nat)
    requires Enabled(s, Advance(t)) && s.threads[t][0] == TimerRings(n) && n < |s.members|
    ensures var closing := if s.members[n].self.timeout == 0 then [] else [CloseNode(n, true, false)];
            Next(s, Advance(t)) == s.(threads := s.threads[t := closing + s.threads[t][1..]])
  {
  }

  /** A timer that is due, and whose task looks at once, is a call that closes with the timeout status. */
  lemma DueTimerIsACall(s: Tree, n: nat)
    requires Enabled(s, TimerDue(n))
    ensures Next(Next(s, TimerDue(n)), Advance(|s.threads|)) == Next(s, Call(CloseNode(n, true, false)))
  {
    var s1 := Next(s, TimerDue(n));
    RingLooks(s1, |s.threads|, n);
    assert [CloseNode(n, true, false)] + s1.threads[|s.threads|][1..] == [CloseNode(n, true, false)];
  }

  /** An armed timer is due from its expiry on, and time gets there. */
  lemma TimerComesDue(s: Tree, n: nat, d: nat)
    requires n < |s.members| && S.Armed(s.members[n].self)
    ensures Next(s, Pass(d)) == s.(now := s.now + d)
    ensures Enabled(Next(s, Pass(d)), TimerDue(n)) <==> s.members[n].self.timer.expiry <= s.now + d
  {
  }

  // ---- Starting timers ------------------------------------------------------------------------------

  predicate NeedsTimer(m: Member) { !m.self.closed && m.self.timer.NoTimer? }

  /** Everyone from n up to k, both included, is open and has no timer. */
  predicate Climbs(s: Tree, n: nat, k: nat)
    decreases n
  {
    && n < |s.members| && NeedsTimer(s.members[n])
    && (k == n ||
        (s.members[n].origin.Some? && s.members[n].origin.value < n && Climbs(s, s.members[n].origin.value, k)))
  }

  /** A signal whose timer is started now: it expires after the timeout, if there is one. */
  function Started(m: Member, now: int): Member
  {
    m.(self := m.self.(timer := S.Timer(if m.self.timeout == 0 then 0 else now + m.self.timeout)))
  }

  lemma StartSection(s: Tree, t: nat, n: nat)
    requires Valid(s) && Enabled(s, Advance(t)) && s.threads[t] == [StartTimer(n)] && n < |s.members|
    ensures var m, s' := s.members[n], Next(s, Advance(t));
            if NeedsTimer(m)
            then
              && s' == s.(members := s.members[n := Started(m, s.now)], threads := s'.threads)
              && s'.threads == s.threads[t := if m.origin.Some? then [StartTimer(m.origin.value)] else []]
              && (m.origin.Some? ==> m.origin.value < n)
            else s' == s.(threads := s.threads[t := []])
  {
    assert MemberOk(s, n);
    var more := Section(s, StartTimer(n)).1;
    assert s.threads[t][1..] == [] && more + [] == more;
  }

  /** The thread of such a call, run to its end with nothing in between. */
  ghost function Climb(s: Tree, t: nat, n: nat): Tree
    requires Valid(s) && t < |s.threads| && s.threads[t] == [StartTimer(n)] && n < |s.members|
    decreases n
  {
    StartSection(s, t, n);
    StepKeepsValid(s, Advance(t));
    var s' := Next(s, Advance(t));
    if s'.threads[t] == [] then s' else Climb(s', t, s.members[n].origin.value)
  }

  /** Whoever is above n is not n. */
  lemma {:induction false} ClimbsUp(s: Tree, n: nat, k: nat)
    requires Climbs(s, n, k)
    ensures k <= n
    decreases n
  {
    if k != n { ClimbsUp(s, s.members[n].origin.value, k); }
  }

  lemma {:induction false} ClimbsBelow(s: Tree, s': Tree, n: nat, k: nat)
    requires |s'.members| == |s.members| && forall i :: 0 <= i <= n && i < |s.members| ==> s'.members[i] == s.members[i]
    ensures Climbs(s', n, k) == Climbs(s, n, k)
    decreases n
  {
    if n < |s.members| && s.members[n].origin.Some? && s.members[n].origin.value < n {
      ClimbsBelow(s, s', s.members[n].origin.value, k);
    }
  }

  lemma {:induction false} ClimbOutcome(s: Tree, t: nat, n: nat)
    requires Valid(s) && t < |s.threads| && s.threads[t] == [StartTimer(n)] && n < |s.members|
    ensures var s' := Climb(s, t, n);
            && s' == s.(members := s'.members, threads := s.threads[t := []]) && |s'.members| == |s.members|
            && forall k :: 0 <= k < |s.members| ==>
                 s'.members[k] == if Climbs(s, n, k) then Started(s.members[k], s.now) else s.members[k]
    decreases n
  {
    hide Valid, Next, Section;
    StartSection(s, t, n);
    StepKeepsValid(s, Advance(t));
    var s1, m := Next(s, Advance(t)), s.members[n];
    if NeedsTimer(m) && m.origin.Some? {
      var p := m.origin.value;
      ClimbOutcome(s1, t, p);
      forall k | 0 <= k < |s.members|
        ensures Climb(s1, t, p).members[k] == if Climbs(s, n, k) then Started(s.members[k], s.now) else s.members[k]
      {
        ClimbsBelow(s, s1, p, k);
        if Climbs(s1, p, k) { ClimbsUp(s1, p, k); }
      }
    }
  }

  /** Over every run: a timer start that runs with nothing in between always ends, and has then given a
      timer to exactly those at or above its signal with no closed signal and no timer on the way, each
      with its own timeout counted from now. */
  lemma TimersClimb(es: seq<Event>, s: Tree, n: nat)
    requires Run(EMPTY, es, s) && n < |s.members|
    ensures Valid(Next(s, Call(StartTimer(n))))
    ensures var s1 := Next(s, Call(StartTimer(n))); var s' := Climb(s1, |s.threads|, n);
            && |s'.members| == |s.members| && s'.threads == s.threads + [[]] && s'.waiters == s.waiters
            && forall k :: 0 <= k < |s.members| ==>
                 s'.members[k] == if Climbs(s, n, k) then Started(s.members[k], s.now) else s.members[k]
  {
    RunKeepsValid(EMPTY, es, s);
    StepKeepsValid(s, Call(StartTimer(n)));
    var s1 := Next(s, Call(StartTimer(n)));
    assert s1.threads[|s.threads|] == [StartTimer(n)];
    ClimbOutcome(s1, |s.threads|, n);
    hide Valid, Climb, Next;
    forall k | 0 <= k < |s.members| ensures Climbs(s1, n, k) == Climbs(s, n, k) { ClimbsBelow(s, s1, n, k); }
  }
}
