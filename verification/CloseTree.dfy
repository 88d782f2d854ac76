/** The tree of close signals at the grain of critical sections: every call of close, stop,
    resume or init_timer is a thread whose steps interleave with all others'. */
module CloseTree {
  import opened Wrappers
  import opened CloseSignal

  /** What a thread has still to do, next first. */
  datatype Todo =
    | CloseNode(n: nat, isTimeout: bool, byParent: bool)
    | RemoveChild(parent: nat, child: nat)
    | StopNode(n: nat, stopTimer: bool)
    | ResumeNode(n: nat)
    | StartTimer(n: nat)
    | TimerRings(n: nat)                   // the timer's wait has ended, its task has not looked yet

  /** A signal in the tree. `origin` and `byParent` are history: the signal it was created under,
      and whether it was closed on that signal's account. */
  datatype Member = Member(self: Node, parent: Option<nat>, children: seq<nat>, origin: Option<nat>, byParent: bool)

  /** A waiter's signal and list, and how often its channel was written. */
  datatype WaiterInfo = WaiterInfo(owner: nat, forStop: bool, writes: nat)

  datatype Tree = Tree(members: seq<Member>, threads: seq<seq<Todo>>, waiters: seq<WaiterInfo>, now: int)

  datatype Event =
    | NewRoot
    | CreateChild(n: nat)
    | Call(todo: Todo)                     // a user calls close, stop, resume or init_timer
    | Advance(t: nat)                      // a thread runs its next critical section
    | TimerDue(n: nat)
    | GetWaiter(n: nat)
    | GetStopWaiter(n: nat)
    | ChangeTimeout(n: nat, dur: int)
    | Pass(d: nat)                         // time passes

  predicate Callable(todo: Todo) { todo.CloseNode? || todo.StopNode? || todo.ResumeNode? || todo.StartTimer? }

  predicate Enabled(s: Tree, e: Event)
  {
    match e
    case NewRoot => true
    case CreateChild(n) => n < |s.members|
    case Call(todo) => Callable(todo) && todo.n < |s.members| && (todo.CloseNode? ==> !todo.byParent)
    case Advance(t) => t < |s.threads| && s.threads[t] != []
    case TimerDue(n) =>
      n < |s.members| && Armed(s.members[n].self) && s.members[n].self.timer.expiry <= s.now
    case GetWaiter(n) => n < |s.members|
    case GetStopWaiter(n) => n < |s.members|
    case ChangeTimeout(n, _) => n < |s.members|
    case Pass(_) => true
  }

  /** Write to the channels of the listed waiters, once per entry. */
  function Signal(ws: seq<WaiterInfo>, ids: seq<nat>): seq<WaiterInfo>
  {
    seq(|ws|, i requires 0 <= i < |ws| => ws[i].(writes := ws[i].writes + multiset(ids)[i]))
  }

  function WithSelf(s: Tree, n: nat, self: Node): Tree
    requires n < |s.members|
  {
    s.(members := s.members[n := s.members[n].(self := self)])
  }

  function Remove(c: seq<nat>, n: nat): seq<nat>
  {
    if c == [] then [] else if c[0] == n then Remove(c[1..], n) else [c[0]] + Remove(c[1..], n)
  }

  /** The same todo for every child. */
  function ForAll(todo: Todo, children: seq<nat>): seq<Todo>
    requires todo.CloseNode? || todo.StopNode? || todo.ResumeNode?
  {
    seq(|children|, i requires 0 <= i < |children| => todo.(n := children[i]))
  }

  /** One critical section: the new tree, and what the thread has to do before the rest. */
  function Section(s: Tree, todo: Todo): (Tree, seq<Todo>)
  {
    match todo
    case RemoveChild(p, c) =>
      if p >= |s.members| || s.members[p].self.closed then (s, [])
      else (s.(members := s.members[p := s.members[p].(children := Remove(s.members[p].children, c))]), [])
    case CloseNode(n, isTimeout, byParent) =>
      if n >= |s.members| || s.members[n].self.closed then (s, [])
      else CloseSection(s, n, isTimeout, byParent)
    case StopNode(n, stopTimer) =>
      if n >= |s.members| || s.members[n].self.closed || s.members[n].self.stopped then (s, [])
      else (WithSelf(s, n, StopSelf(s.members[n].self, stopTimer, s.now)), ForAll(todo, s.members[n].children))
    case ResumeNode(n) =>
      if n >= |s.members| || !s.members[n].self.stopped then (s, [])
      else
        var m := s.members[n];
        (WithSelf(s, n, ResumeSelf(m.self, s.now)).(waiters := Signal(s.waiters, m.self.stopWaiters)),
            ForAll(todo, m.children))
    case StartTimer(n) =>
      if n >= |s.members| || s.members[n].self.closed || s.members[n].self.timer.Timer? then (s, [])
      else (WithSelf(s, n, InitTimer(s.members[n].self, s.now)),
            if s.members[n].parent.Some? then [StartTimer(s.members[n].parent.value)] else [])
    case TimerRings(n) =>
      if n >= |s.members| || s.members[n].self.timeout == 0 then (s, [])
      else (s, [CloseNode(n, true, false)])
  }

  /** Closing takes the signal out of the tree: its parent is to forget it, its children are to
      be closed likewise. */
  function CloseSection(s: Tree, n: nat, isTimeout: bool, byParent: bool): (Tree, seq<Todo>)
    requires n < |s.members|
  {
    var m := s.members[n];
    var m' := m.(self := CloseSelf(m.self, isTimeout), parent := None, children := [], byParent := byParent);
    (s.(members := s.members[n := m'], waiters := Signal(s.waiters, m.self.waiters + m.self.stopWaiters)),
     (if m.parent.Some? then [RemoveChild(m.parent.value, n)] else []) +
         ForAll(CloseNode(n, isTimeout, true), m.children))
  }

  function Next(s: Tree, e: Event): Tree
    requires Enabled(s, e)
  {
    match e
    case NewRoot => s.(members := s.members + [Member(NEW_NODE, None, [], None, false)])
    case CreateChild(n) =>
      var m := s.members[n];
      if m.self.closed then
        s.(members := s.members + [Member(CloseSelf(NEW_NODE, m.self.isTimeout), None, [], Some(n), true)])
      else
        var c := |s.members|;
        s.(members := s.members[n := m.(children := m.children + [c])] +
            [Member(NEW_NODE, Some(n), [], Some(n), false)])
    case Call(todo) => s.(threads := s.threads + [[todo]])
    case Advance(t) =>
      var (s', more) := Section(s, s.threads[t][0]);
      s'.(threads := s.threads[t := more + s.threads[t][1..]])
    case TimerDue(n) => s.(threads := s.threads + [[TimerRings(n)]])
    case GetWaiter(n) =>
      if s.members[n].self.closed then s
      else WithSelf(s, n, AddWaiter(s.members[n].self, |s.waiters|)).(waiters := s.waiters + [WaiterInfo(n, false, 0)])
    case GetStopWaiter(n) =>
      if !s.members[n].self.stopped then s
      else
        WithSelf(s, n, AddStopWaiter(s.members[n].self, |s.waiters|)).(
          waiters := s.waiters + [WaiterInfo(n, true, 0)])
    case ChangeTimeout(n, dur) => WithSelf(s, n, SetTimeout(s.members[n].self, dur, s.now))
    case Pass(d) => s.(now := s.now + d)
  }

  // ---- One signal's own invariant -----------------------------------------------------------------

  /** Closed: no waiters, not stopped, no timeout. Not stopped: no one waits for a resume. */
  predicate Tidy(n: Node)
  {
    && (n.closed ==> n.waiters == [] && n.stopWaiters == [] && !n.stopped && n.timeout == 0)
    && (!n.stopped ==> n.stopWaiters == [])
  }

  lemma SectionsKeepTidy(n: Node, b: bool, now: int, dur: int, w: nat)
    requires Tidy(n)
    ensures Tidy(CloseSelf(n, b)) && CloseSelf(n, b).closed
    ensures Tidy(StopSelf(n, b, now)) && StopSelf(n, b, now).closed == n.closed
    ensures Tidy(ResumeSelf(n, now)) && ResumeSelf(n, now).closed == n.closed
    ensures Tidy(InitTimer(n, now)) && InitTimer(n, now).closed == n.closed
    ensures Tidy(SetTimeout(n, dur, now)) && SetTimeout(n, dur, now).closed == n.closed
    ensures Tidy(AddWaiter(n, w)) && Tidy(AddStopWaiter(n, w))
  {
  }

  // ---- The tree's invariant -------------------------------------------------------------------------

  predicate Closed(s: Tree, n: nat) { n < |s.members| && s.members[n].self.closed }

  predicate MemberOk(s: Tree, n: nat)
    requires n < |s.members|
  {
    var m := s.members[n];
    && Tidy(m.self)
    && (m.self.closed ==> m.parent == None && m.children == [])
    && (!m.self.closed ==> m.parent == m.origin)
    && (m.origin.Some? ==> m.origin.value < n)
    && (m.self.closed && m.byParent ==>
          m.origin.Some? && Closed(s, m.origin.value) && s.members[m.origin.value].self.isTimeout == m.self.isTimeout)
    && (forall i :: 0 <= i < |m.children| ==> m.children[i] < |s.members| && s.members[m.children[i]].origin == Some(n))
  }

  predicate TodoOk(s: Tree, todo: Todo)
  {
    match todo
    case CloseNode(n, isTimeout, byParent) =>
      && n < |s.members|
      && (byParent ==>
            var o := s.members[n].origin;
            o.Some? && Closed(s, o.value) && s.members[o.value].self.isTimeout == isTimeout)
    case RemoveChild(p, c) => Closed(s, c)
    case _ => true
  }

  ghost predicate Queued(todos: seq<Todo>, n: nat)
  {
    exists i :: 0 <= i < |todos| && todos[i].CloseNode? && todos[i].n == n
  }

  ghost predicate InFlight(threads: seq<seq<Todo>>, n: nat)
  {
    exists t :: 0 <= t < |threads| && Queued(threads[t], n)
  }

  /** An open signal with a parent is among the children of an open parent, or a close of it is
      under way. */
  ghost predicate Attached(s: Tree, n: nat)
    requires n < |s.members|
  {
    var m := s.members[n];
    !m.self.closed && m.parent.Some? ==>
      (m.parent.value < |s.members| && !Closed(s, m.parent.value) && n in s.members[m.parent.value].children) ||
          InFlight(s.threads, n)
  }

  ghost predicate Valid(s: Tree)
  {
    && (forall n :: 0 <= n < |s.members| ==> MemberOk(s, n))
    && (forall n :: 0 <= n < |s.members| ==> Attached(s, n))
    && (forall t, i :: 0 <= t < |s.threads| && 0 <= i < |s.threads[t]| ==> TodoOk(s, s.threads[t][i]))
  }

  /** What a critical section never undoes. */
  ghost predicate Grows(s: Tree, s': Tree)
  {
    && |s.members| <= |s'.members|
    && forall n :: 0 <= n < |s.members| ==>
         && s'.members[n].origin == s.members[n].origin
         && (s.members[n].self.closed ==>
               s'.members[n].self.closed && s'.members[n].self.isTimeout == s.members[n].self.isTimeout)
  }

  lemma TodosSurvive(s: Tree, s': Tree)
    requires Valid(s) && Grows(s, s') && s'.threads == s.threads
    ensures forall t, i :: 0 <= t < |s.threads| && 0 <= i < |s.threads[t]| ==> TodoOk(s', s.threads[t][i])
  {
    hide Attached;
    forall t, i | 0 <= t < |s.threads| && 0 <= i < |s.threads[t]| ensures TodoOk(s', s.threads[t][i]) {
      TodoSurvives(s, s', s.threads[t][i]);
    }
  }

  lemma TodoSurvives(s: Tree, s': Tree, todo: Todo)
    requires TodoOk(s, todo) && Grows(s, s') && forall n :: 0 <= n < |s.members| ==> MemberOk(s, n)
    ensures TodoOk(s', todo)
  {
    if todo.CloseNode? { assert MemberOk(s, todo.n); }
  }

  /** A section that changes one member's own state, and neither closes nor detaches it. */
  lemma ChangeSelf(s: Tree, n: nat, self: Node, ws: seq<WaiterInfo>)
    requires Valid(s) && n < |s.members| && Tidy(self)
    requires self.closed == s.members[n].self.closed && (self.closed ==> self.isTimeout == s.members[n].self.isTimeout)
    ensures Valid(WithSelf(s, n, self).(waiters := ws)) && Grows(s, WithSelf(s, n, self).(waiters := ws))
  {
    hide Tidy;
    var s' := WithSelf(s, n, self).(waiters := ws);
    TodosSurvive(s, s');
    forall k | 0 <= k < |s'.members| ensures MemberOk(s', k) && Attached(s', k) {
      assert MemberOk(s, k) && Attached(s, k);
    }
  }

  lemma {:induction false} RemoveMeaning(c: seq<nat>, n: nat)
    ensures forall x :: x in Remove(c, n) <==> x in c && x != n
  {
    if c != [] { RemoveMeaning(c[1..], n); }
  }

  lemma RemoveChildSection(s: Tree, p: nat, c: nat)
    requires Valid(s) && Closed(s, c)
    ensures Valid(Section(s, RemoveChild(p, c)).0) && Grows(s, Section(s, RemoveChild(p, c)).0)
  {
    hide Tidy;
    var s' := Section(s, RemoveChild(p, c)).0;
    if p < |s.members| && !s.members[p].self.closed {
      RemoveMeaning(s.members[p].children, c);
      TodosSurvive(s, s');
      forall k | 0 <= k < |s'.members| ensures MemberOk(s', k) && Attached(s', k) {
        assert MemberOk(s, k) && Attached(s, k);
        forall i | 0 <= i < |s'.members[k].children|
          ensures s'.members[k].children[i] < |s'.members| && s'.members[s'.members[k].children[i]].origin == Some(k)
        {
          assert s'.members[k].children[i] in s.members[k].children;
        }
      }
    }
  }

  lemma CloseSectionMembers(s: Tree, n: nat, isTimeout: bool, byParent: bool)
    requires Valid(s) && n < |s.members| && !s.members[n].self.closed && TodoOk(s, CloseNode(n, isTimeout, byParent))
    ensures var (s', more) := CloseSection(s, n, isTimeout, byParent);
            && Grows(s, s') && s'.threads == s.threads
            && (forall k :: 0 <= k < |s'.members| ==> MemberOk(s', k))
            && (forall i :: 0 <= i < |more| ==> TodoOk(s', more[i]))
  {
    hide Tidy, Attached;
    var (s', more) := CloseSection(s, n, isTimeout, byParent);
    assert MemberOk(s, n);
    SectionsKeepTidy(s.members[n].self, isTimeout, 0, 0, 0);
    forall k | 0 <= k < |s'.members| ensures MemberOk(s', k) {
      assert MemberOk(s, k);
    }
    var head := if s.members[n].parent.Some? then 1 else 0;
    forall i | 0 <= i < |more| ensures TodoOk(s', more[i]) {
      if i >= head { assert more[i] == CloseNode(s.members[n].children[i - head], isTimeout, true); }
    }
  }

  /** After the close of `n` its children are only about to be closed. */
  lemma CloseSectionAttached(s: Tree, n: nat, isTimeout: bool, byParent: bool)
    requires Valid(s) && n < |s.members| && !s.members[n].self.closed
    ensures var (s', more) := CloseSection(s, n, isTimeout, byParent);
            forall k :: 0 <= k < |s'.members| ==> Attached(s', k) || Queued(more, k)
  {
    hide MemberOk, TodoOk;
    var (s', more) := CloseSection(s, n, isTimeout, byParent);
    var head := if s.members[n].parent.Some? then 1 else 0;
    forall k | 0 <= k < |s'.members| ensures Attached(s', k) || Queued(more, k) {
      assert Attached(s, k);
      if s.members[k].parent == Some(n) && k in s.members[n].children {
        var i :| 0 <= i < |s.members[n].children| && s.members[n].children[i] == k;
        assert more[head + i] == CloseNode(k, isTimeout, true);
      }
    }
  }

  /** What every critical section brings about, before the thread's list is brought up to date. */
  ghost predicate SectionOk(s: Tree, todo: Todo, s': Tree, more: seq<Todo>)
  {
    && Grows(s, s') && s'.threads == s.threads
    && (forall k :: 0 <= k < |s'.members| ==> MemberOk(s', k))
    && (forall i :: 0 <= i < |more| ==> TodoOk(s', more[i]))
    && (forall k :: 0 <= k < |s'.members| ==> Attached(s', k) || Queued(more, k))
    && (todo.CloseNode? && todo.n < |s'.members| ==> Closed(s', todo.n))
  }

  lemma SectionKeeps(s: Tree, todo: Todo)
    requires Valid(s) && TodoOk(s, todo)
    ensures SectionOk(s, todo, Section(s, todo).0, Section(s, todo).1)
  {
    hide Attached, TodoOk, MemberOk;
    match todo
    case CloseNode(n, isTimeout, byParent) =>
      if n < |s.members| && !s.members[n].self.closed {
        CloseSectionMembers(s, n, isTimeout, byParent);
        CloseSectionAttached(s, n, isTimeout, byParent);
      }
    case RemoveChild(p, c) => RemovedIsClosed(s, p, c); RemoveChildSection(s, p, c);
    case StopNode(n, stopTimer) => SelfSection(s, todo);
    case ResumeNode(n) => SelfSection(s, todo);
    case StartTimer(n) => SelfSection(s, todo);
    case TimerRings(n) => SelfSection(s, todo);
  }

  lemma RemovedIsClosed(s: Tree, p: nat, c: nat)
    requires TodoOk(s, RemoveChild(p, c))
    ensures Closed(s, c)
  {
  }

  lemma SelfSection(s: Tree, todo: Todo)
    requires Valid(s) && TodoOk(s, todo) && !todo.CloseNode? && !todo.RemoveChild?
    ensures SectionOk(s, todo, Section(s, todo).0, Section(s, todo).1)
  {
    hide Attached, Tidy, StopSelf, ResumeSelf, InitTimer;
    if todo.n < |s.members| {
      var m := s.members[todo.n];
      assert MemberOk(s, todo.n);
      SectionsKeepTidy(m.self, todo.StopNode? && todo.stopTimer, s.now, 0, 0);
      SelfFacts(m.self, s.now);
      match todo
      case StopNode(n, stopTimer) => ChangeSelf(s, n, StopSelf(m.self, stopTimer, s.now), s.waiters);
      case ResumeNode(n) => ChangeSelf(s, n, ResumeSelf(m.self, s.now), Signal(s.waiters, m.self.stopWaiters));
      case StartTimer(n) => ChangeSelf(s, n, InitTimer(m.self, s.now), s.waiters);
      case TimerRings(n) =>
    }
  }

  lemma SelfFacts(n: Node, now: int)
    ensures n.closed ==> forall b :: StopSelf(n, b, now).isTimeout == n.isTimeout
    ensures ResumeSelf(n, now).isTimeout == n.isTimeout && InitTimer(n, now).isTimeout == n.isTimeout
  {
  }

  /** Replacing the head of one thread by what its section asks for. */
  lemma AdvanceThreads(threads: seq<seq<Todo>>, t: nat, more: seq<Todo>, n: nat)
    requires t < |threads| && threads[t] != []
    ensures var threads' := threads[t := more + threads[t][1..]];
            && (Queued(more, n) ==> InFlight(threads', n))
            && (InFlight(threads, n) && !(threads[t][0].CloseNode? && threads[t][0].n == n) ==> InFlight(threads', n))
  {
    var rest := more + threads[t][1..];
    var threads' := threads[t := rest];
    if Queued(more, n) {
      var i :| 0 <= i < |more| && more[i].CloseNode? && more[i].n == n;
      assert rest[i] == more[i];
      assert Queued(threads'[t], n);
    }
    if InFlight(threads, n) && !(threads[t][0].CloseNode? && threads[t][0].n == n) {
      var u :| 0 <= u < |threads| && Queued(threads[u], n);
      if u == t {
        var i :| 0 <= i < |threads[t]| && threads[t][i].CloseNode? && threads[t][i].n == n;
        assert rest[|more| + i - 1] == threads[t][i];
      }
      assert Queued(threads'[u], n);
    }
  }

  lemma AdvanceKeepsValid(s: Tree, t: nat)
    requires Valid(s) && Enabled(s, Advance(t))
    ensures Valid(Next(s, Advance(t)))
  {
    hide TodoOk, MemberOk, Section, Queued, InFlight;
    var todo := s.threads[t][0];
    SectionKeeps(s, todo);
    var (s1, more) := Section(s, todo);
    var s' := Next(s, Advance(t));
    assert s' == s1.(threads := s.threads[t := more + s.threads[t][1..]]);
    forall k | 0 <= k < |s'.members| ensures MemberOk(s', k) && Attached(s', k) {
      MemberIgnoresThreads(s1, s', k);
      AdvanceThreads(s.threads, t, more, k);
      assert Attached(s1, k) || Queued(more, k);
    }
    AdvanceTodos(s, t, s1, more);
  }

  lemma MemberIgnoresThreads(s: Tree, s': Tree, k: nat)
    requires s'.members == s.members && k < |s.members| && MemberOk(s, k)
    ensures MemberOk(s', k)
  {
  }

  lemma AdvanceTodos(s: Tree, t: nat, s1: Tree, more: seq<Todo>)
    requires Valid(s) && Enabled(s, Advance(t)) && Grows(s, s1)
    requires forall i :: 0 <= i < |more| ==> TodoOk(s1, more[i])
    ensures var s' := s1.(threads := s.threads[t := more + s.threads[t][1..]]);
            forall u, i :: 0 <= u < |s'.threads| && 0 <= i < |s'.threads[u]| ==> TodoOk(s', s'.threads[u][i])
  {
    hide MemberOk, Attached;
    var s' := s1.(threads := s.threads[t := more + s.threads[t][1..]]);
    forall u, i | 0 <= u < |s'.threads| && 0 <= i < |s'.threads[u]| ensures TodoOk(s', s'.threads[u][i]) {
      var todo := s'.threads[u][i];
      if u == t && i < |more| {
        assert todo == more[i];
        assert TodoOk(s1, todo);
      } else {
        if u == t { assert todo == s.threads[t][i - |more| + 1]; }
        TodoSurvives(s, s', todo);
      }
    }
  }

  lemma NewMember(s: Tree, m: Member)
    requires Valid(s) && MemberOk(s.(members := s.members + [m]), |s.members|)
    requires m.self.closed || m.parent.None?
    ensures Valid(s.(members := s.members + [m]))
  {
    hide Tidy;
    var s' := s.(members := s.members + [m]);
    TodosSurvive(s, s');
    forall k | 0 <= k < |s'.members| ensures MemberOk(s', k) && Attached(s', k) {
      if k < |s.members| { assert MemberOk(s, k) && Attached(s, k); }
    }
  }

  lemma NewChild(s: Tree, n: nat)
    requires Valid(s) && n < |s.members| && !s.members[n].self.closed
    ensures Valid(Next(s, CreateChild(n)))
  {
    var s', c := Next(s, CreateChild(n)), |s.members|;
    TodosSurvive(s, s');
    assert s'.members[n].children[|s.members[n].children|] == c;
    forall k | 0 <= k < |s'.members| ensures MemberOk(s', k) && Attached(s', k) {
      if k < c { assert MemberOk(s, k) && Attached(s, k); }
    }
  }

  lemma NewThread(s: Tree, todo: Todo)
    requires Valid(s) && TodoOk(s, todo)
    ensures Valid(s.(threads := s.threads + [[todo]]))
  {
    hide Tidy, Queued;
    var s' := s.(threads := s.threads + [[todo]]);
    forall k | 0 <= k < |s'.members| ensures MemberOk(s', k) && Attached(s', k) {
      assert MemberOk(s, k) && Attached(s, k);
      if InFlight(s.threads, k) {
        var t :| 0 <= t < |s.threads| && Queued(s.threads[t], k);
        assert Queued(s'.threads[t], k);
      }
    }
    forall t, i | 0 <= t < |s'.threads| && 0 <= i < |s'.threads[t]| ensures TodoOk(s', s'.threads[t][i]) {
      if t < |s.threads| { assert TodoOk(s, s.threads[t][i]); }
    }
  }

  lemma StepKeepsValid(s: Tree, e: Event)
    requires Valid(s) && Enabled(s, e)
    ensures Valid(Next(s, e))
  {
    hide Attached, StopSelf, ResumeSelf, InitTimer;
    match e
    case NewRoot => NewMember(s, Member(NEW_NODE, None, [], None, false));
    case CreateChild(n) =>
      if s.members[n].self.closed {
        NewMember(s, Member(CloseSelf(NEW_NODE, s.members[n].self.isTimeout), None, [], Some(n), true));
      } else {
        NewChild(s, n);
      }
    case Call(todo) => NewThread(s, todo);
    case Advance(t) => AdvanceKeepsValid(s, t);
    case TimerDue(n) => NewThread(s, TimerRings(n));
    case GetWaiter(n) =>
      assert MemberOk(s, n);
      ChangeSelf(s, n, AddWaiter(s.members[n].self, |s.waiters|), s.waiters + [WaiterInfo(n, false, 0)]);
    case GetStopWaiter(n) =>
      assert MemberOk(s, n);
      ChangeSelf(s, n, AddStopWaiter(s.members[n].self, |s.waiters|), s.waiters + [WaiterInfo(n, true, 0)]);
    case ChangeTimeout(n, dur) =>
      assert MemberOk(s, n);
      ChangeSelf(s, n, SetTimeout(s.members[n].self, dur, s.now), s.waiters);
    case Pass(d) => PassKeepsValid(s, d);
  }

  lemma PassKeepsValid(s: Tree, d: nat)
    requires Valid(s)
    ensures Valid(s.(now := s.now + d))
  {
    hide Tidy;
    var s' := s.(now := s.now + d);
    TodosSurvive(s, s');
    forall k | 0 <= k < |s'.members| ensures MemberOk(s', k) && Attached(s', k) {
      assert MemberOk(s, k) && Attached(s, k);
    }
  }

  // ---- Waiters ----------------------------------------------------------------------------------

  /** How often a waiter's channel stands in the list it was put on. */
  function Listed(s: Tree, w: nat): nat
    requires w < |s.waiters| && s.waiters[w].owner < |s.members|
  {
    var n := s.members[s.waiters[w].owner].self;
    if s.waiters[w].forStop then multiset(n.stopWaiters)[w] else multiset(n.waiters)[w]
  }

  /** A waiter is either listed, once and unwritten, or written once; a close waiter is listed for
      as long as its signal is open. */
  predicate WaiterOk(s: Tree, w: nat)
    requires w < |s.waiters|
  {
    && s.waiters[w].owner < |s.members|
    && Listed(s, w) + s.waiters[w].writes == 1
    && (!s.waiters[w].forStop && !Closed(s, s.waiters[w].owner) ==> s.waiters[w].writes == 0)
  }

  ghost predicate OnList(s: Tree, n: nat, list: seq<nat>, forStop: bool)
  {
    forall w :: w in list ==> w < |s.waiters| && s.waiters[w].owner == n && s.waiters[w].forStop == forStop
  }

  ghost predicate WaitersOk(s: Tree)
  {
    && (forall w :: 0 <= w < |s.waiters| ==> WaiterOk(s, w))
    && (forall n :: 0 <= n < |s.members| ==>
          OnList(s, n, s.members[n].self.waiters, false) && OnList(s, n, s.members[n].self.stopWaiters, true))
  }

  /** A section that leaves every list and channel alone, and closes nothing. */
  lemma ListsUntouched(s: Tree, s': Tree)
    requires WaitersOk(s) && s'.waiters == s.waiters && |s.members| <= |s'.members|
    requires forall n :: 0 <= n < |s.members| ==>
               && s'.members[n].self.waiters == s.members[n].self.waiters
               && s'.members[n].self.stopWaiters == s.members[n].self.stopWaiters
               && s'.members[n].self.closed == s.members[n].self.closed
    requires forall n :: |s.members| <= n < |s'.members| ==>
              s'.members[n].self.waiters == [] && s'.members[n].self.stopWaiters == []
    ensures WaitersOk(s')
  {
    forall w | 0 <= w < |s'.waiters| ensures WaiterOk(s', w) { assert WaiterOk(s, w); }
  }

  /** A section that writes to all channels on some of one signal's lists and empties those. */
  lemma ListsSignalled(s: Tree, s': Tree, n: nat, both: bool)
    requires WaitersOk(s) && n < |s.members| && |s'.members| == |s.members|
    requires forall k :: 0 <= k < |s.members| && k != n ==> s'.members[k].self == s.members[k].self
    requires s'.members[n].self.waiters == if both then [] else s.members[n].self.waiters
    requires s'.members[n].self.stopWaiters == []
    requires s'.members[n].self.closed == (both || s.members[n].self.closed)
    requires s'.waiters == Signal(s.waiters, (if both then s.members[n].self.waiters else []) +
        s.members[n].self.stopWaiters)
    ensures WaitersOk(s')
  {
    var m := s.members[n].self;
    var ids := (if both then m.waiters else []) + m.stopWaiters;
    forall w | 0 <= w < |s'.waiters| ensures WaiterOk(s', w) {
      assert WaiterOk(s, w);
      assert s'.waiters[w] == s.waiters[w].(writes := s.waiters[w].writes + multiset(ids)[w]);
      assert multiset(ids)[w] == (if both then multiset(m.waiters)[w] else 0) + multiset(m.stopWaiters)[w];
      if w in m.waiters { assert OnList(s, n, m.waiters, false); }
      if w in m.stopWaiters { assert OnList(s, n, m.stopWaiters, true); }
    }
    forall k | 0 <= k < |s'.members|
      ensures OnList(s', k, s'.members[k].self.waiters, false) && OnList(s', k, s'.members[k].self.stopWaiters, true)
    {
      assert OnList(s, k, s.members[k].self.waiters, false) && OnList(s, k, s.members[k].self.stopWaiters, true);
    }
  }

  /** A new waiter joins one list of one signal. */
  lemma WaiterJoins(s: Tree, s': Tree, n: nat, forStop: bool)
    requires WaitersOk(s) && n < |s.members| && |s'.members| == |s.members|
    requires !s.members[n].self.closed && s'.members[n].self.closed == s.members[n].self.closed
    requires forall k :: 0 <= k < |s.members| && k != n ==> s'.members[k].self == s.members[k].self
    requires s'.waiters == s.waiters + [WaiterInfo(n, forStop, 0)]
    requires s'.members[n].self.waiters == s.members[n].self.waiters + if forStop then [] else [|s.waiters|]
    requires s'.members[n].self.stopWaiters == s.members[n].self.stopWaiters + if forStop then [|s.waiters|] else []
    ensures WaitersOk(s')
  {
    assert OnList(s, n, s.members[n].self.waiters, false) && OnList(s, n, s.members[n].self.stopWaiters, true);
    assert |s.waiters| !in s.members[n].self.waiters && |s.waiters| !in s.members[n].self.stopWaiters;
    forall w | 0 <= w < |s'.waiters| ensures WaiterOk(s', w) {
      if w < |s.waiters| {
        assert WaiterOk(s, w);
        assert multiset(s'.members[n].self.waiters)[w] == multiset(s.members[n].self.waiters)[w];
        assert multiset(s'.members[n].self.stopWaiters)[w] == multiset(s.members[n].self.stopWaiters)[w];
      }
    }
    forall k | 0 <= k < |s'.members|
      ensures OnList(s', k, s'.members[k].self.waiters, false) && OnList(s', k, s'.members[k].self.stopWaiters, true)
    {
      assert OnList(s, k, s.members[k].self.waiters, false) && OnList(s, k, s.members[k].self.stopWaiters, true);
    }
  }

  lemma ListFacts(n: Node, b: bool, now: int, dur: int)
    ensures var m := StopSelf(n, b, now);
              m.waiters == n.waiters && m.stopWaiters == n.stopWaiters && m.closed == n.closed
    ensures var m := InitTimer(n, now); m.waiters == n.waiters && m.stopWaiters == n.stopWaiters && m.closed == n.closed
    ensures var m := SetTimeout(n, dur, now);
              m.waiters == n.waiters && m.stopWaiters == n.stopWaiters && m.closed == n.closed
    ensures var m := ResumeSelf(n, now);
              m.waiters == n.waiters && m.closed == n.closed && (n.stopped ==> m.stopWaiters == [])
  {
  }

  lemma SectionKeepsWaiters(s: Tree, todo: Todo)
    requires WaitersOk(s)
    ensures WaitersOk(Section(s, todo).0)
  {
    hide WaitersOk, StopSelf, ResumeSelf, InitTimer, SetTimeout;
    var s' := Section(s, todo).0;
    match todo
    case CloseNode(n, isTimeout, byParent) =>
      if n < |s.members| && !s.members[n].self.closed { ListsSignalled(s, s', n, true); }
    case RemoveChild(p, c) => ListsUntouched(s, s');
    case StopNode(n, stopTimer) =>
      if n < |s.members| { ListFacts(s.members[n].self, stopTimer, s.now, 0); }
      ListsUntouched(s, s');
    case ResumeNode(n) =>
      if n < |s.members| && s.members[n].self.stopped {
        ListFacts(s.members[n].self, false, s.now, 0);
        assert [] + s.members[n].self.stopWaiters == s.members[n].self.stopWaiters;
        ListsSignalled(s, s', n, false);
      }
    case StartTimer(n) =>
      if n < |s.members| { ListFacts(s.members[n].self, false, s.now, 0); }
      ListsUntouched(s, s');
    case TimerRings(n) => ListsUntouched(s, s');
  }

  lemma StepKeepsWaiters(s: Tree, e: Event)
    requires Valid(s) && WaitersOk(s) && Enabled(s, e)
    ensures WaitersOk(Next(s, e))
  {
    hide WaitersOk, StopSelf, ResumeSelf, InitTimer, SetTimeout, Section, Attached;
    var s' := Next(s, e);
    match e
    case Advance(t) =>
      SectionKeepsWaiters(s, s.threads[t][0]);
      ListsUntouched(Section(s, s.threads[t][0]).0, s');
    case GetWaiter(n) =>
      if !s.members[n].self.closed {
        assert s.members[n].self.stopWaiters + [] == s.members[n].self.stopWaiters;
        WaiterJoins(s, s', n, false);
      }
    case GetStopWaiter(n) =>
      if s.members[n].self.stopped {
        assert MemberOk(s, n);
        assert s.members[n].self.waiters + [] == s.members[n].self.waiters;
        WaiterJoins(s, s', n, true);
      }
    case ChangeTimeout(n, dur) =>
      ListFacts(s.members[n].self, false, s.now, dur);
      ListsUntouched(s, s');
    case _ => ListsUntouched(s, s');
  }

  // ---- Runs -------------------------------------------------------------------------------------

  const EMPTY := Tree([], [], [], 0)

  ghost predicate Run(s: Tree, es: seq<Event>, s': Tree)
    decreases |es|
  {
    if es == [] then s == s' else Enabled(s, es[0]) && Run(Next(s, es[0]), es[1..], s')
  }

  lemma {:induction false} RunKeepsValid(s: Tree, es: seq<Event>, s': Tree)
    requires Valid(s) && WaitersOk(s) && Run(s, es, s')
    ensures Valid(s') && WaitersOk(s')
    decreases |es|
  {
    hide Valid, WaitersOk, Next, Enabled;
    if es != [] {
      StepKeepsValid(s, es[0]);
      StepKeepsWaiters(s, es[0]);
      RunKeepsValid(Next(s, es[0]), es[1..], s');
    }
  }

  /** `n` was created under `a`, or under a signal created under it, and so on. */
  predicate Descends(s: Tree, n: nat, a: nat)
    decreases n
  {
    n == a || (n < |s.members| && s.members[n].origin.Some? && s.members[n].origin.value < n &&
        Descends(s, s.members[n].origin.value, a))
  }

  /** An open signal below a closed one is there only while a close is under way for it or for a
      signal between the two. */
  lemma {:induction false} OnlyAnUnfinishedCloseDelays(s: Tree, n: nat, a: nat) returns (m: nat)
    requires Valid(s) && n < |s.members| && Closed(s, a) && !Closed(s, n)
    requires Descends(s, n, a)
    ensures Descends(s, n, m) && Descends(s, m, a) && m != a && InFlight(s.threads, m)
    decreases n
  {
    hide Tidy, InFlight;
    assert MemberOk(s, n) && Attached(s, n);
    var p := s.members[n].origin.value;
    if Closed(s, p) {
      m := n;
      if m == a { assert false; }
    } else {
      assert MemberOk(s, p);
      m := OnlyAnUnfinishedCloseDelays(s, p, a);
    }
  }

  /** After any run, however closes, child creations and stops raced: with no close under way,
      everything below a closed signal is closed. */
  lemma ClosingReachesAllDescendants(es: seq<Event>, s: Tree)
    requires Run(EMPTY, es, s)
    ensures Valid(s)
    ensures forall n, a :: 0 <= n < |s.members| && Closed(s, a) && Descends(s, n, a) && !Closed(s, n) ==>
              exists m :: InFlight(s.threads, m)
  {
    RunKeepsValid(EMPTY, es, s);
    forall n, a | 0 <= n < |s.members| && Closed(s, a) && Descends(s, n, a) && !Closed(s, n)
      ensures exists m :: InFlight(s.threads, m)
    {
      var m := OnlyAnUnfinishedCloseDelays(s, n, a);
    }
  }

  /** Whoever was closed on its creator's account shares the creator's timeout status. */
  lemma TimeoutStatusIsInherited(es: seq<Event>, s: Tree, n: nat)
    requires Run(EMPTY, es, s) && Closed(s, n) && s.members[n].byParent
    ensures s.members[n].origin.Some?
    ensures var p := s.members[n].origin.value;
              Closed(s, p) && s.members[p].self.isTimeout == s.members[n].self.isTimeout
  {
    RunKeepsValid(EMPTY, es, s);
    assert MemberOk(s, n);
  }

  /** A close waiter is unwritten while its signal is open and written exactly once when it is
      closed; a stop waiter is unwritten while it is listed, which is only while its signal is
      open and stopped, and written exactly once after. */
  lemma WaitersAreSignalledOnce(es: seq<Event>, s: Tree, w: nat)
    requires Run(EMPTY, es, s) && w < |s.waiters|
    ensures s.waiters[w].owner < |s.members|
    ensures var n := s.members[s.waiters[w].owner].self;
            if s.waiters[w].forStop
            then s.waiters[w].writes == (if w in n.stopWaiters then 0 else 1) &&
                (w in n.stopWaiters ==> n.stopped && !n.closed)
            else s.waiters[w].writes == (if n.closed then 1 else 0)
  {
    RunKeepsValid(EMPTY, es, s);
    assert WaiterOk(s, w);
    assert MemberOk(s, s.waiters[w].owner);
  }

  /** Closed is for ever: the signal keeps its timeout status, and has no waiters, no children, no
      timeout and is not stopped, in every later state. */
  lemma {:induction false} ClosedForEver(s: Tree, es: seq<Event>, s': Tree, n: nat)
    requires Valid(s) && WaitersOk(s) && Run(s, es, s') && Closed(s, n)
    ensures Closed(s', n) && s'.members[n].self.isTimeout == s.members[n].self.isTimeout
    ensures var m := s'.members[n];
            m.self.waiters == [] && m.self.stopWaiters == [] && m.children == [] && !m.self.stopped &&
                m.self.timeout == 0
    decreases |es|
  {
    assert MemberOk(s, n);
    if es != [] {
      StepKeepsValid(s, es[0]);
      StepKeepsWaiters(s, es[0]);
      StaysClosed(s, es[0], n);
      ClosedForEver(Next(s, es[0]), es[1..], s', n);
    }
  }

  lemma StaysClosed(s: Tree, e: Event, n: nat)
    requires Valid(s) && Enabled(s, e) && Closed(s, n)
    ensures Closed(Next(s, e), n) && Next(s, e).members[n].self.isTimeout == s.members[n].self.isTimeout
  {
    hide Attached, Section;
    if e.Advance? {
      SectionKeeps(s, s.threads[e.t][0]);
    }
  }

  // ---- A close runs to its end --------------------------------------------------------------------

  function OpenCount(ms: seq<Member>): nat
  {
    if ms == [] then 0 else OpenCount(ms[..|ms| - 1]) + if ms[|ms| - 1].self.closed then 0 else 1
  }

  lemma {:induction false} OpenCountUpdate(ms: seq<Member>, n: nat, m: Member)
    requires n < |ms|
    ensures OpenCount(ms[n := m]) == OpenCount(ms) - (if ms[n].self.closed then 0 else 1) +
        (if m.self.closed then 0 else 1)
  {
    var k := |ms| - 1;
    if n < k {
      OpenCountUpdate(ms[..k], n, m);
      assert ms[n := m][..k] == ms[..k][n := m];
    } else {
      assert ms[n := m][..k] == ms[..k];
    }
  }

  predicate Closing(todos: seq<Todo>)
  {
    forall i :: 0 <= i < |todos| ==> todos[i].CloseNode? || todos[i].RemoveChild?
  }

  lemma ClosingShrinks(s: Tree, t: nat)
    requires Enabled(s, Advance(t)) && Closing(s.threads[t])
    ensures var s' := Next(s, Advance(t));
            && |s'.threads| == |s.threads| && Closing(s'.threads[t])
            && (forall u :: 0 <= u < |s.threads| && u != t ==> s'.threads[u] == s.threads[u])
            && (OpenCount(s'.members) < OpenCount(s.members) ||
                (OpenCount(s'.members) == OpenCount(s.members) && |s'.threads[t]| < |s.threads[t]|))
  {
    var todo := s.threads[t][0];
    if todo.CloseNode? && todo.n < |s.members| && !s.members[todo.n].self.closed {
      var s' := Next(s, Advance(t));
      OpenCountUpdate(s.members, todo.n, s'.members[todo.n]);
    } else if todo.RemoveChild? && todo.parent < |s.members| && !s.members[todo.parent].self.closed {
      var s' := Next(s, Advance(t));
      OpenCountUpdate(s.members, todo.parent, s'.members[todo.parent]);
    }
  }

  /** One thread that is closing, run to its end with nothing in between. */
  ghost function Drain(s: Tree, t: nat): Tree
    requires t < |s.threads| && Closing(s.threads[t])
    decreases OpenCount(s.members), |s.threads[t]|
  {
    if s.threads[t] == [] then s
    else
      ClosingShrinks(s, t);
      Drain(Next(s, Advance(t)), t)
  }

  lemma {:induction false} DrainEnds(s: Tree, t: nat, n: nat)
    requires Valid(s) && t < |s.threads| && Closing(s.threads[t])
    requires forall u, m :: 0 <= u < |s.threads| && u != t ==> !Queued(s.threads[u], m)
    requires Closed(s, n) || (s.threads[t] != [] && s.threads[t][0].CloseNode? && s.threads[t][0].n == n < |s.members|)
    ensures Valid(Drain(s, t)) && Closed(Drain(s, t), n) && forall m :: !InFlight(Drain(s, t).threads, m)
    decreases OpenCount(s.members), |s.threads[t]|
  {
    hide Attached, Section, OpenCount;
    if s.threads[t] != [] {
      ClosingShrinks(s, t);
      StepKeepsValid(s, Advance(t));
      SectionKeeps(s, s.threads[t][0]);
      DrainEnds(Next(s, Advance(t)), t, n);
    }
  }

  lemma {:induction false} DescendsByOrigin(s: Tree, s': Tree, n: nat, a: nat)
    requires |s.members| == |s'.members| && forall k :: 0 <= k < |s.members| ==>
        s'.members[k].origin == s.members[k].origin
    ensures Descends(s, n, a) == Descends(s', n, a)
    decreases n
  {
    if n < |s.members| && s.members[n].origin.Some? && s.members[n].origin.value < n {
      DescendsByOrigin(s, s', s.members[n].origin.value, a);
    }
  }

  /** A thread that closes signals below `a`, all with one timeout status. */
  ghost predicate ClosingBelow(s: Tree, todos: seq<Todo>, a: nat, isTimeout: bool)
  {
    forall i :: 0 <= i < |todos| && todos[i].CloseNode? ==>
      todos[i].isTimeout == isTimeout && todos[i].n < |s.members| && Descends(s, todos[i].n, a)
  }

  lemma SameMembersBelow(s: Tree, s': Tree, todos: seq<Todo>, a: nat, isTimeout: bool)
    requires |s.members| == |s'.members| && forall k :: 0 <= k < |s.members| ==>
        s'.members[k].origin == s.members[k].origin
    requires ClosingBelow(s, todos, a, isTimeout)
    ensures ClosingBelow(s', todos, a, isTimeout)
  {
    forall i | 0 <= i < |todos| && todos[i].CloseNode? ensures Descends(s', todos[i].n,
      a) { DescendsByOrigin(s, s', todos[i].n, a); }
  }

  /** One step of such a thread closes at most the signal it names, and goes on below it. */
  lemma CloseStepBelow(s: Tree, t: nat, a: nat, isTimeout: bool)
    requires Valid(s) && Enabled(s, Advance(t)) && Closing(s.threads[t]) && ClosingBelow(s, s.threads[t], a, isTimeout)
    ensures var s' := Next(s, Advance(t));
            && |s'.members| == |s.members| && |s'.threads| == |s.threads|
            && (forall k :: 0 <= k < |s.members| ==> s'.members[k].origin == s.members[k].origin)
            && (forall k :: 0 <= k < |s.members| && Closed(s', k) && !Closed(s, k) ==>
                  Descends(s, k, a) && s'.members[k].self.isTimeout == isTimeout)
            && ClosingBelow(s', s'.threads[t], a, isTimeout)
  {
    hide Attached, TodoOk, Descends;
    var s', todo := Next(s, Advance(t)), s.threads[t][0];
    var rest, more := s.threads[t][1..], Section(s, todo).1;
    SameMembersBelow(s, s', rest, a, isTimeout);
    forall i | 0 <= i < |more| && more[i].CloseNode?
      ensures more[i].isTimeout == isTimeout && more[i].n < |s.members| && Descends(s', more[i].n, a)
    {
      var m := s.members[todo.n];
      assert MemberOk(s, todo.n);
      var head := if m.parent.Some? then 1 else 0;
      assert more[i] == CloseNode(m.children[i - head], isTimeout, true);
      assert MemberOk(s, more[i].n);
      DescendsThroughOrigin(s, more[i].n, todo.n, a);
      DescendsByOrigin(s, s', more[i].n, a);
    }
    assert s'.threads[t] == more + rest;
  }

  lemma DescendsThroughOrigin(s: Tree, n: nat, p: nat, a: nat)
    requires n < |s.members| && s.members[n].origin == Some(p) && p < n && Descends(s, p, a)
    ensures Descends(s, n, a)
  {
  }

  lemma {:induction false} DrainStaysBelow(s: Tree, t: nat, a: nat, isTimeout: bool)
    requires Valid(s) && t < |s.threads| && Closing(s.threads[t]) && ClosingBelow(s, s.threads[t], a, isTimeout)
    ensures var s' := Drain(s, t);
            && |s'.members| == |s.members|
            && (forall k :: 0 <= k < |s.members| ==> s'.members[k].origin == s.members[k].origin)
            && (forall k :: 0 <= k < |s.members| && Closed(s', k) && !Closed(s, k) ==>
                  Descends(s, k, a) && s'.members[k].self.isTimeout == isTimeout)
    decreases OpenCount(s.members), |s.threads[t]|
  {
    hide Valid, Next, Section, OpenCount, Descends, ClosingBelow;
    if s.threads[t] != [] {
      ClosingShrinks(s, t);
      CloseStepBelow(s, t, a, isTimeout);
      StepKeepsValid(s, Advance(t));
      var s1 := Next(s, Advance(t));
      DrainStaysBelow(s1, t, a, isTimeout);
      forall k | 0 <= k < |s.members| && Closed(Drain(s, t), k) && !Closed(s, k)
        ensures Descends(s, k, a) && Drain(s, t).members[k].self.isTimeout == isTimeout
      {
        DescendsByOrigin(s, s1, k, a);
        if Closed(s1, k) { DrainKeepsClosed(s1, t, k); }
      }
    }
  }

  lemma {:induction false} DrainKeepsClosed(s: Tree, t: nat, k: nat)
    requires Valid(s) && t < |s.threads| && Closing(s.threads[t]) && Closed(s, k)
    ensures Closed(Drain(s, t), k) && Drain(s, t).members[k].self.isTimeout == s.members[k].self.isTimeout
    decreases OpenCount(s.members), |s.threads[t]|
  {
    hide Valid, Next, Section, OpenCount;
    if s.threads[t] != [] {
      ClosingShrinks(s, t);
      StepKeepsValid(s, Advance(t));
      StaysClosed(s, Advance(t), k);
      DrainKeepsClosed(Next(s, Advance(t)), t, k);
    }
  }

  /** The thread of a close, until it has run its first section. */
  predicate Begins(s: Tree, t: nat, todo: Todo) { t < |s.threads| && s.threads[t] == [todo] }

  lemma BeginsOrClosed(s: Tree, e: Event, t: nat, n: nat, isTimeout: bool)
    requires Valid(s) && Enabled(s, e) && Begins(s, t, CloseNode(n, isTimeout, false)) && n < |s.members|
    ensures Begins(Next(s, e), t, CloseNode(n, isTimeout, false)) || Closed(Next(s, e), n)
    ensures n < |Next(s, e).members|
  {
    hide Attached, MemberOk, Section;
    if e.Advance? { SectionKeeps(s, s.threads[e.t][0]); }
  }

  lemma {:induction false} ThreadCloses(s: Tree, es: seq<Event>, s': Tree, t: nat, n: nat, isTimeout: bool)
    requires Valid(s) && WaitersOk(s) && Run(s, es, s') && n < |s.members|
    requires Closed(s, n) || Begins(s, t, CloseNode(n, isTimeout, false))
    ensures Closed(s', n) || Begins(s', t, CloseNode(n, isTimeout, false))
    decreases |es|
  {
    hide Valid, WaitersOk, Next, Enabled;
    if es != [] {
      StepKeepsValid(s, es[0]);
      StepKeepsWaiters(s, es[0]);
      if Closed(s, n) { StaysClosed(s, es[0], n); } else { BeginsOrClosed(s, es[0], t, n, isTimeout); }
      ThreadCloses(Next(s, es[0]), es[1..], s', t, n, isTimeout);
    }
  }

  /** A close that has come to its end, whatever other threads did meanwhile: its signal is closed;
      and whoever is below it, then or by now, is closed or about to be, for a close is still under
      way of it or of a signal between the two. With no close under way, all below are closed. */
  lemma FinishedCloseReachesTheSubtree(
      before: seq<Event>, s: Tree, n: nat, isTimeout: bool, es: seq<Event>, s': Tree, k: nat)
    returns (m: nat)
    requires Run(EMPTY, before, s) && n < |s.members|
    requires Run(Next(s, Call(CloseNode(n, isTimeout, false))), es, s')
    requires |s.threads| < |s'.threads| && s'.threads[|s.threads|] == []
    requires k < |s'.members| && Descends(s', k, n)
    ensures Closed(s', n)
    ensures !Closed(s', k) ==> Descends(s', k, m) && Descends(s', m, n) && m != n && InFlight(s'.threads, m)
    ensures (forall i :: !InFlight(s'.threads, i)) ==> Closed(s', k)
  {
    RunKeepsValid(EMPTY, before, s);
    var s1 := Next(s, Call(CloseNode(n, isTimeout, false)));
    StepKeepsValid(s, Call(CloseNode(n, isTimeout, false)));
    StepKeepsWaiters(s, Call(CloseNode(n, isTimeout, false)));
    ThreadCloses(s1, es, s', |s.threads|, n, isTimeout);
    RunKeepsValid(s1, es, s');
    m := n;
    if !Closed(s', k) { m := OnlyAnUnfinishedCloseDelays(s', k, n); }
  }

  /** Closing a signal while no other close is under way always ends, and has then closed just the
      signals below it that were open, all with the timeout status of the call. */
  lemma CloseAloneClosesTheSubtree(es: seq<Event>, s: Tree, n: nat, isTimeout: bool)
    requires Run(EMPTY, es, s) && n < |s.members| && forall m :: !InFlight(s.threads, m)
    ensures var s' := Drain(Next(s, Call(CloseNode(n, isTimeout, false))), |s.threads|);
            && Valid(s') && |s'.members| == |s.members|
            && (forall k :: 0 <= k < |s.members| ==> (Closed(s', k) <==> Closed(s, k) || Descends(s, k, n)))
            && (forall k :: 0 <= k < |s.members| && Closed(s', k) ==>
                  s'.members[k].self.isTimeout == if Closed(s, k) then s.members[k].self.isTimeout else isTimeout)
  {
    hide Attached, Drain, Section;
    RunKeepsValid(EMPTY, es, s);
    var s1 := Next(s, Call(CloseNode(n, isTimeout, false)));
    StepKeepsValid(s, Call(CloseNode(n, isTimeout, false)));
    var t := |s.threads|;
    forall u, m | 0 <= u < |s1.threads| && u != t ensures !Queued(s1.threads[u], m) {
      assert !InFlight(s.threads, m);
    }
    DrainEnds(s1, t, n);
    assert Descends(s1, n, n);
    DrainStaysBelow(s1, t, n, isTimeout);
    var s' := Drain(s1, t);
    forall k | 0 <= k < |s.members|
      ensures Closed(s', k) <==> Closed(s, k) || Descends(s, k, n)
      ensures Closed(s', k) && Closed(s, k) ==> s'.members[k].self.isTimeout == s.members[k].self.isTimeout
    {
      DescendsByOrigin(s, s1, k, n);
      DescendsByOrigin(s1, s', k, n);
      if Closed(s1, k) { DrainKeepsClosed(s1, t, k); }
      else if Descends(s', k, n) && !Closed(s', k) {
        var m := OnlyAnUnfinishedCloseDelays(s', k, n);
        assert false;
      }
    }
  }
}
