/** A closed signal leaves the tree: its parent forgets it. */
module CloseLeaves {
  import opened Wrappers
  import S = CloseSignal
  import opened CloseTree

  ghost predicate ToForget(todos: seq<Todo>, p: nat, c: nat)
  {
    exists i :: 0 <= i < |todos| && todos[i] == RemoveChild(p, c)
  }

  ghost predicate Forgetting(threads: seq<seq<Todo>>, p: nat, c: nat)
  {
    exists t :: 0 <= t < |threads| && ToForget(threads[t], p, c)
  }

  /** A closed signal is among the children of p only while somebody is about to take it out. */
  ghost predicate Forgotten(s: Tree, p: nat, c: nat)
    requires p < |s.members|
  {
    c in s.members[p].children && Closed(s, c) ==> Forgetting(s.threads, p, c)
  }

  ghost predicate Tidied(s: Tree) { forall p, c :: 0 <= p < |s.members| ==> Forgotten(s, p, c) }

  /** Replacing the head of one thread by what its section asks for. */
  lemma StillToForget(threads: seq<seq<Todo>>, t: nat, more: seq<Todo>, p: nat, c: nat)
    requires t < |threads| && threads[t] != []
    ensures var threads' := threads[t := more + threads[t][1..]];
            && (ToForget(more, p, c) ==> Forgetting(threads', p, c))
            && (Forgetting(threads, p, c) && threads[t][0] != RemoveChild(p, c) ==> Forgetting(threads', p, c))
  {
    var rest := more + threads[t][1..];
    var threads' := threads[t := rest];
    if ToForget(more, p, c) {
      var i :| 0 <= i < |more| && more[i] == RemoveChild(p, c);
      assert rest[i] == more[i];
      assert ToForget(threads'[t], p, c);
    }
    if Forgetting(threads, p, c) && threads[t][0] != RemoveChild(p, c) {
      var u :| 0 <= u < |threads| && ToForget(threads[u], p, c);
      if u == t {
        var i :| 0 <= i < |threads[t]| && threads[t][i] == RemoveChild(p, c);
        assert rest[|more| + i - 1] == threads[t][i];
      }
      assert ToForget(threads'[u], p, c);
    }
  }

  /** What a critical section does to children and closed signals. */
  lemma SectionForgets(s: Tree, todo: Todo, p: nat, c: nat)
    requires Valid(s) && p < |s.members|
    ensures var (s', more) := Section(s, todo);
            && |s'.members| == |s.members| && s'.threads == s.threads
            && (c in s'.members[p].children ==>
                  c in s.members[p].children && todo != RemoveChild(p, c) &&
                  (Closed(s', c) && !Closed(s, c) ==> ToForget(more, p, c)))
  {
    hide S.StopSelf, S.ResumeSelf, S.InitTimer, Attached, TodoOk;
    if todo.RemoveChild? && todo.parent < |s.members| { RemoveMeaning(s.members[todo.parent].children, todo.child); }
    var (s', more) := Section(s, todo);
    assert MemberOk(s, p);
    if c in s'.members[p].children && Closed(s', c) && !Closed(s, c) {
      assert MemberOk(s, p) && MemberOk(s, c);
      SectionClosesOnly(s, todo, c);
      assert more[0] == RemoveChild(p, c);
    }
  }

  lemma SectionClosesOnly(s: Tree, todo: Todo, c: nat)
    requires Closed(Section(s, todo).0, c) && !Closed(s, c) && c < |s.members|
    ensures todo.CloseNode? && todo.n == c
  {
  }

  lemma StepTidies(s: Tree, e: Event)
    requires Valid(s) && Tidied(s) && Enabled(s, e)
    ensures Tidied(Next(s, e))
  {
    var s' := Next(s, e);
    forall p, c | 0 <= p < |s'.members| ensures Forgotten(s', p, c) {
      if c in s'.members[p].children && Closed(s', c) {
        if e.Advance? {
          SectionForgets(s, s.threads[e.t][0], p, c);
          StillToForget(s.threads, e.t, Section(s, s.threads[e.t][0]).1, p, c);
          assert Forgotten(s, p, c);
        } else {
          OldChild(s, e, p, c);
          assert Forgotten(s, p, c);
          var u :| 0 <= u < |s.threads| && ToForget(s.threads[u], p, c);
          assert s'.threads[u] == s.threads[u];
        }
      }
    }
  }

  /** Nothing but a critical section of a thread closes an old signal, and new children are open. */
  lemma OldChild(s: Tree, e: Event, p: nat, c: nat)
    requires Valid(s) && Enabled(s, e) && !e.Advance?
    requires p < |Next(s, e).members| && c in Next(s, e).members[p].children && Closed(Next(s, e), c)
    ensures p < |s.members| && c in s.members[p].children && Closed(s, c)
    ensures |s.threads| <= |Next(s, e).threads| && Next(s, e).threads[..|s.threads|] == s.threads
  {
    hide Attached, TodoOk;
    if p < |s.members| { assert MemberOk(s, p); }
  }

  lemma {:induction false} RunTidies(s: Tree, es: seq<Event>, s': Tree)
    requires Valid(s) && WaitersOk(s) && Tidied(s) && Run(s, es, s')
    ensures Tidied(s')
    decreases |es|
  {
    hide Valid, WaitersOk, Tidied, Next, Enabled;
    if es != [] {
      StepKeepsValid(s, es[0]);
      StepKeepsWaiters(s, es[0]);
      StepTidies(s, es[0]);
      RunTidies(Next(s, es[0]), es[1..], s');
    }
  }

  /** Over every run, whatever raced: a signal that is closed is no child of any, unless its close has yet
      to take it out. */
  lemma ClosedLeavesTheTree(es: seq<Event>, s: Tree, p: nat, c: nat)
    requires Run(EMPTY, es, s) && p < |s.members| && Closed(s, c)
    ensures c in s.members[p].children ==> Forgetting(s.threads, p, c)
    ensures s.members[c].parent.None? && s.members[c].children == []
  {
    RunTidies(EMPTY, es, s);
    RunKeepsValid(EMPTY, es, s);
    assert Forgotten(s, p, c) && MemberOk(s, c);
  }
}
