/** How far a stop or a resume spreads: exactly along the signals that it still switches. */
module CloseSpread {
  import opened Wrappers
  import S = CloseSignal
  import opened CloseTree

  predicate Spreads(todo: Todo) { todo.StopNode? || todo.ResumeNode? }

  /** Whether the call would change a signal in this state, and so goes on to its children. */
  predicate Ready(n: S.Node, todo: Todo)
    requires Spreads(todo)
  {
    if todo.StopNode? then !n.closed && !n.stopped else n.stopped
  }

  function Switched(n: S.Node, todo: Todo, now: int): S.Node
    requires Spreads(todo)
  {
    if todo.StopNode? then S.StopSelf(n, todo.stopTimer, now) else S.ResumeSelf(n, now)
  }

  /** Everyone from k up to a, both included, would be changed by the call. */
  predicate Chain(s: Tree, todo: Todo, k: nat, a: nat)
    requires Spreads(todo)
    decreases k
  {
    && k < |s.members| && Ready(s.members[k].self, todo)
    && (k == a ||
        (s.members[k].origin.Some? && s.members[k].origin.value < k && Chain(s, todo, s.members[k].origin.value, a)))
  }

  // ---- A call that runs with nothing in between --------------------------------------------------

  function ReadyCount(ms: seq<Member>, todo: Todo): nat
    requires Spreads(todo)
  {
    if ms == [] then 0
    else ReadyCount(ms[..|ms| - 1], todo) + if Ready(ms[|ms| - 1].self, todo) then 1 else 0
  }

  lemma {:induction false} ReadyCountUpdate(ms: seq<Member>, todo: Todo, n: nat, m: Member)
    requires n < |ms| && Spreads(todo)
    ensures ReadyCount(ms[n := m], todo) ==
            ReadyCount(ms, todo) - (if Ready(ms[n].self, todo) then 1 else 0) + (if Ready(m.self, todo) then 1 else 0)
  {
    var k := |ms| - 1;
    if n < k {
      ReadyCountUpdate(ms[..k], todo, n, m);
      assert ms[n := m][..k] == ms[..k][n := m];
    } else {
      assert ms[n := m][..k] == ms[..k];
    }
  }

  /** The same call on another signal. */
  function At(todo: Todo, n: nat): Todo
    requires Spreads(todo)
  {
    if todo.StopNode? then StopNode(n, todo.stopTimer) else ResumeNode(n)
  }

  /** The thread has only this call's work to do, each piece on some signal. */
  predicate Spreading(todos: seq<Todo>, todo: Todo)
    requires Spreads(todo)
  {
    forall i :: 0 <= i < |todos| ==> Spreads(todos[i]) && todos[i] == At(todo, todos[i].n)
  }

  lemma SwitchedIsDone(n: S.Node, todo: Todo, now: int)
    requires Spreads(todo)
    ensures Ready(n, todo) ==> !Ready(Switched(n, todo, now), todo)
  {
  }

  /** One step of such a thread. */
  lemma SpreadStep(s: Tree, t: nat, todo: Todo)
    requires Spreads(todo) && Enabled(s, Advance(t)) && Spreading(s.threads[t], todo)
    ensures var s', h := Next(s, Advance(t)), s.threads[t][0].n;
            && s'.now == s.now && |s'.members| == |s.members|
            && Spreading(s'.threads[t], todo)
            && s'.threads == s.threads[t := s'.threads[t]]
            && (if h < |s.members| && Ready(s.members[h].self, todo)
                then
                  && s'.members == s.members[h := s.members[h].(self := Switched(s.members[h].self, todo, s.now))]
                  && s'.threads[t] == ForAll(todo, s.members[h].children) + s.threads[t][1..]
                else s'.members == s.members && s'.threads[t] == s.threads[t][1..])
  {
    var h := s.threads[t][0].n;
    assert s.threads[t][0] == At(todo, h);
    if h < |s.members| { assert ForAll(s.threads[t][0], s.members[h].children) == ForAll(todo, s.members[h].children); }
  }

  lemma SpreadShrinks(s: Tree, t: nat, todo: Todo)
    requires Spreads(todo) && Enabled(s, Advance(t)) && Spreading(s.threads[t], todo)
    ensures var s' := Next(s, Advance(t));
            && |s'.threads| == |s.threads| && Spreading(s'.threads[t], todo)
            && (ReadyCount(s'.members, todo) < ReadyCount(s.members, todo) ||
                (ReadyCount(s'.members, todo) == ReadyCount(s.members, todo) && |s'.threads[t]| < |s.threads[t]|))
  {
    var h, s' := s.threads[t][0].n, Next(s, Advance(t));
    SpreadStep(s, t, todo);
    hide Next, Spreading, Switched, Ready;
    if h < |s.members| && Ready(s.members[h].self, todo) {
      SwitchedIsDone(s.members[h].self, todo, s.now);
      ReadyCountUpdate(s.members, todo, h, s'.members[h]);
    }
  }

  ghost function Finish(s: Tree, t: nat, todo: Todo): Tree
    requires t < |s.threads| && Spreads(todo) && Spreading(s.threads[t], todo)
    decreases ReadyCount(s.members, todo), |s.threads[t]|
  {
    if s.threads[t] == [] then s
    else
      SpreadShrinks(s, t, todo);
      Finish(Next(s, Advance(t)), t, todo)
  }

  // ---- Where it gets to --------------------------------------------------------------------------

  ghost predicate Reached(s: Tree, todo: Todo, todos: seq<Todo>, k: nat)
    requires Spreads(todo) && Spreading(todos, todo)
  {
    exists i :: 0 <= i < |todos| && Chain(s, todo, k, todos[i].n)
  }

  /** The trees differ in that h is switched. */
  ghost predicate OnlySwitched(s: Tree, s': Tree, todo: Todo, h: nat)
    requires Spreads(todo)
  {
    && |s'.members| == |s.members| && h < |s.members|
    && Ready(s.members[h].self, todo) && !Ready(s'.members[h].self, todo)
    && (forall k :: 0 <= k < |s.members| ==> s'.members[k].origin == s.members[k].origin)
    && forall k :: 0 <= k < |s.members| && k != h ==> s'.members[k].self == s.members[k].self
  }

  /** A chain either avoids h or goes through a signal created under h. */
  lemma {:induction false} ChainSplits(s: Tree, s': Tree, todo: Todo, k: nat, a: nat, h: nat) returns (c: nat)
    requires Spreads(todo) && OnlySwitched(s, s', todo, h) && Chain(s, todo, k, a) && k != h
    ensures Chain(s', todo, k, a) ||
            (Chain(s', todo, k, c) && c < |s.members| && s.members[c].origin == Some(h) && h < c &&
             Ready(s.members[c].self, todo))
    decreases k
  {
    c := k;
    if k != a && s.members[k].origin.value != h {
      c := ChainSplits(s, s', todo, s.members[k].origin.value, a, h);
    }
  }

  /** A chain of the later tree is one of the earlier, and may be prolonged to h. */
  lemma {:induction false} ChainJoins(s: Tree, s': Tree, todo: Todo, k: nat, a: nat, h: nat)
    requires Spreads(todo) && OnlySwitched(s, s', todo, h) && Chain(s', todo, k, a)
    ensures k != h && Chain(s, todo, k, a) && a < |s.members|
    ensures s.members[a].origin == Some(h) && h < a ==> Chain(s, todo, k, h)
    decreases k
  {
    if k != a { ChainJoins(s, s', todo, s.members[k].origin.value, a, h); }
  }

  /** No close is under way. */
  ghost predicate NoClose(s: Tree) { forall m, t :: 0 <= t < |s.threads| ==> !Queued(s.threads[t], m) }

  /** With no close under way, whoever the call would change is among the children of its creator. */
  lemma ReadyIsChild(s: Tree, todo: Todo, c: nat, h: nat)
    requires Valid(s) && NoClose(s) && Spreads(todo)
    requires c < |s.members| && h < |s.members| && s.members[c].origin == Some(h) && Ready(s.members[c].self, todo)
    ensures c in s.members[h].children
  {
    assert MemberOk(s, c) && Attached(s, c) && !InFlight(s.threads, c);
  }

  /** One step on a signal that the call changes: the others reached stay the same. */
  lemma ReachedStays(s: Tree, s': Tree, todo: Todo, todos: seq<Todo>, k: nat)
    requires Valid(s) && NoClose(s) && Spreads(todo) && todos != [] && Spreading(todos, todo)
    requires OnlySwitched(s, s', todo, todos[0].n) && k != todos[0].n
    ensures var todos' := ForAll(todo, s.members[todos[0].n].children) + todos[1..];
            Spreading(todos', todo) && (Reached(s', todo, todos', k) <==> Reached(s, todo, todos, k))
  {
    var h := todos[0].n;
    var kids := s.members[h].children;
    var todos' := ForAll(todo, kids) + todos[1..];
    hide Valid, Ready, Chain;
    if Reached(s, todo, todos, k) {
      var i :| 0 <= i < |todos| && Chain(s, todo, k, todos[i].n);
      var c := ChainSplits(s, s', todo, k, todos[i].n, h);
      if Chain(s', todo, k, todos[i].n) && i > 0 {
        assert todos'[|kids| + i - 1] == todos[i];
      } else {
        if Chain(s', todo, k, h) { NoChainTo(s', todo, k, h); }
        ReadyIsChild(s, todo, c, h);
        var j :| 0 <= j < |kids| && kids[j] == c;
        assert todos'[j].n == c;
      }
    }
    if Reached(s', todo, todos', k) {
      var i :| 0 <= i < |todos'| && Chain(s', todo, k, todos'[i].n);
      ChainJoins(s, s', todo, k, todos'[i].n, h);
      if i < |kids| {
        ChildOfSwitched(s, h, i);
        assert todos'[i].n == kids[i] && Chain(s, todo, k, todos[0].n);
      } else {
        assert todos'[i] == todos[i - |kids| + 1];
      }
    }
  }

  lemma ChildOfSwitched(s: Tree, h: nat, i: nat)
    requires Valid(s) && h < |s.members| && i < |s.members[h].children|
    ensures var c := s.members[h].children[i]; c < |s.members| && s.members[c].origin == Some(h) && h < c
  {
    assert MemberOk(s, h) && MemberOk(s, s.members[h].children[i]);
  }

  lemma {:induction false} NoChainTo(s: Tree, todo: Todo, k: nat, a: nat)
    requires Spreads(todo) && Chain(s, todo, k, a)
    ensures a < |s.members| && Ready(s.members[a].self, todo)
    decreases k
  {
    if k != a { NoChainTo(s, todo, s.members[k].origin.value, a); }
  }

  /** What the call makes of a signal. */
  ghost function Outcome(s: Tree, todo: Todo, todos: seq<Todo>, k: nat): Member
    requires Spreads(todo) && Spreading(todos, todo) && k < |s.members|
  {
    var m := s.members[k];
    if Reached(s, todo, todos, k) then m.(self := Switched(m.self, todo, s.now)) else m
  }

  /** A step changes no outcome. */
  lemma StepKeepsOutcome(s: Tree, t: nat, todo: Todo, k: nat)
    requires Valid(s) && NoClose(s) && Spreads(todo) && Enabled(s, Advance(t)) && Spreading(s.threads[t], todo)
    requires k < |s.members|
    ensures var s' := Next(s, Advance(t));
            && |s'.members| == |s.members| && Spreading(s'.threads[t], todo)
            && Outcome(s', todo, s'.threads[t], k) == Outcome(s, todo, s.threads[t], k)
  {
    var s', todos := Next(s, Advance(t)), s.threads[t];
    var h := todos[0].n;
    SpreadStep(s, t, todo);
    hide Next, Valid, NoClose, Switched, Spreading, Section;
    if h < |s.members| && Ready(s.members[h].self, todo) {
      SwitchedIsDone(s.members[h].self, todo, s.now);
      if k == h {
        assert Chain(s, todo, h, todos[0].n);
        assert !Reached(s', todo, s'.threads[t], k);
      } else {
        ReachedStays(s, s', todo, todos, k);
      }
    } else {
      SkipKeepsReached(s, s', todo, todos, k);
    }
  }

  lemma SkipKeepsReached(s: Tree, s': Tree, todo: Todo, todos: seq<Todo>, k: nat)
    requires Spreads(todo) && todos != [] && Spreading(todos, todo) && s'.members == s.members
    requires !(todos[0].n < |s.members| && Ready(s.members[todos[0].n].self, todo))
    ensures Spreading(todos[1..], todo) && (Reached(s', todo, todos[1..], k) <==> Reached(s, todo, todos, k))
  {
    hide Ready;
    if Reached(s, todo, todos, k) {
      var i :| 0 <= i < |todos| && Chain(s, todo, k, todos[i].n);
      NoChainTo(s, todo, k, todos[i].n);
      SameChain(s, s', todo, k, todos[i].n);
      assert todos[1..][i - 1] == todos[i];
    }
    if Reached(s', todo, todos[1..], k) {
      var i :| 0 <= i < |todos| - 1 && Chain(s', todo, k, todos[1..][i].n);
      SameChain(s, s', todo, k, todos[i + 1].n);
    }
  }

  lemma {:induction false} SameChain(s: Tree, s': Tree, todo: Todo, k: nat, a: nat)
    requires Spreads(todo) && s'.members == s.members
    ensures Chain(s', todo, k, a) == Chain(s, todo, k, a)
    decreases k
  {
    if k < |s.members| && k != a && s.members[k].origin.Some? && s.members[k].origin.value < k {
      SameChain(s, s', todo, s.members[k].origin.value, a);
    }
  }

  lemma StepKeepsNoClose(s: Tree, t: nat, todo: Todo)
    requires NoClose(s) && Spreads(todo) && Enabled(s, Advance(t)) && Spreading(s.threads[t], todo)
    ensures NoClose(Next(s, Advance(t)))
  {
    SpreadStep(s, t, todo);
    var s' := Next(s, Advance(t));
    hide Next;
    forall m, u | 0 <= u < |s'.threads| ensures !Queued(s'.threads[u], m) {
      if u != t { assert s'.threads[u] == s.threads[u]; }
    }
  }

  lemma {:induction false} FinishOutcome(s: Tree, t: nat, todo: Todo)
    requires Valid(s) && NoClose(s) && t < |s.threads| && Spreads(todo) && Spreading(s.threads[t], todo)
    ensures var s' := Finish(s, t, todo);
            && |s'.members| == |s.members|
            && forall k :: 0 <= k < |s.members| ==> s'.members[k] == Outcome(s, todo, s.threads[t], k)
    decreases ReadyCount(s.members, todo), |s.threads[t]|
  {
    hide Valid, NoClose, Next, ReadyCount, Spreading;
    if s.threads[t] != [] {
      SpreadStep(s, t, todo);
      assert |Next(s, Advance(t)).members| == |s.members|;
      SpreadShrinks(s, t, todo);
      StepKeepsValid(s, Advance(t));
      StepKeepsNoClose(s, t, todo);
      var s1 := Next(s, Advance(t));
      FinishOutcome(s1, t, todo);
      forall k | 0 <= k < |s.members|
        ensures |s1.members| == |s.members| && Finish(s, t, todo).members[k] == Outcome(s, todo, s.threads[t], k)
      {
        StepKeepsOutcome(s, t, todo, k);
      }
    }
  }

  /** Over every run: a stop or resume that runs with nothing in between, while no close is under way,
      always ends, and has then stopped or resumed exactly those at or below its signal that are
      joined to it by signals it stops or resumes too; no one else, and nothing else, has changed. */
  lemma SpreadsAlongTheChain(es: seq<Event>, s: Tree, todo: Todo)
    requires Run(EMPTY, es, s) && Spreads(todo) && todo.n < |s.members| && NoClose(s)
    ensures var s1 := s.(threads := s.threads + [[todo]]);
            var s' := Finish(s1, |s.threads|, todo);
            && s1 == Next(s, Call(todo)) && |s'.members| == |s.members|
            && forall k :: 0 <= k < |s.members| ==>
                 s'.members[k] == if Chain(s, todo, k, todo.n)
                                  then s.members[k].(self := Switched(s.members[k].self, todo, s.now))
                                  else s.members[k]
  {
    RunKeepsValid(EMPTY, es, s);
    StepKeepsValid(s, Call(todo));
    var s1, t := Next(s, Call(todo)), |s.threads|;
    assert s1 == s.(threads := s.threads + [[todo]]) && s1.threads[t] == [todo];
    hide Next, Valid, Finish, Switched;
    CallKeepsNoClose(s, todo);
    FinishOutcome(s1, t, todo);
    forall k | 0 <= k < |s.members| ensures Reached(s1, todo, [todo], k) <==> Chain(s, todo, k, todo.n) {
      SameChain(s, s1, todo, k, todo.n);
      if Chain(s, todo, k, todo.n) { assert Chain(s1, todo, k, [todo][0].n); }
    }
  }

  lemma CallKeepsNoClose(s: Tree, todo: Todo)
    requires NoClose(s) && Spreads(todo)
    ensures NoClose(s.(threads := s.threads + [[todo]]))
  {
    var threads := s.threads + [[todo]];
    forall m, u | 0 <= u < |threads| ensures !Queued(threads[u], m) {
      if u < |s.threads| { assert threads[u] == s.threads[u]; }
    }
  }

  /** A child made under a stopped signal runs on. */
  lemma ChildOfStoppedRunsOn(es: seq<Event>, s: Tree, n: nat)
    requires Run(EMPTY, es, s) && n < |s.members| && s.members[n].self.stopped
    ensures var s', c := Next(s, CreateChild(n)), |s.members|;
            s'.members[c].self == S.NEW_NODE && s'.members[c].parent == s'.members[c].origin == Some(n)
  {
    RunKeepsValid(EMPTY, es, s);
    assert MemberOk(s, n);
  }

  /** And for as long as its creator is stopped, no stop but its own reaches it; a resume reaches a
      stopped signal from above only if its creator is stopped too. */
  lemma CreatorShields(s: Tree, c: nat, a: nat, todo: Todo)
    requires Spreads(todo) && c < |s.members| && c != a
    requires s.members[c].origin.Some? && s.members[c].origin.value < |s.members|
    requires s.members[s.members[c].origin.value].self.stopped == todo.StopNode?
    ensures !Chain(s, todo, c, a)
  {
    if Chain(s, todo, c, a) { NoChainAbove(s, todo, s.members[c].origin.value, a); }
  }

  lemma NoChainAbove(s: Tree, todo: Todo, k: nat, a: nat)
    requires Spreads(todo) && k < |s.members| && !Ready(s.members[k].self, todo)
    ensures !Chain(s, todo, k, a)
  {
  }
}
