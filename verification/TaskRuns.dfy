/** What a group's reports are worth, and that every group can come to its end. */
module TaskRuns {
  import opened TaskGroups

  // ---- Reports are true ----------------------------------------------------------------------------

  /** In the steps, task i came to this outcome. */
  predicate Did<T(==)>(es: seq<Step<T>>, i: nat, o: Outcome<T>)
  {
    if o.Done? then Finish(i, o.value) in es else Throw(i, o.code) in es
  }

  predicate WasClosed<T(==)>(es: seq<Step<T>>) { Close(true) in es || Close(false) in es }

  /** Whatever was read or is being written is what the task came to; and the closer is closed, and a
      read ended, only if somebody closed it. */
  ghost predicate Honest<T>(g: Group<T>, es: seq<Step<T>>)
  {
    && (forall j :: 0 <= j < |g.seen| && g.seen[j].Report? ==> Did(es, g.seen[j].index, g.seen[j].outcome))
    && (forall i :: 0 <= i < |g.tasks| ==> HonestTask(g, es, i))
    && (Closed in g.seen ==> g.closed) && (g.closed ==> WasClosed(es))
  }

  ghost predicate HonestTask<T>(g: Group<T>, es: seq<Step<T>>, i: nat)
    requires i < |g.tasks|
  {
    match g.tasks[i].stage
    case WritingResult(value) => Finish(i, value) in es
    case WritingError(code) => Throw(i, code) in es
    case Caught(code) => Throw(i, code) in es || g.closed
    case _ => true
  }

  lemma StepIsHonest<T>(g: Group<T>, before: seq<Step<T>>, e: Step<T>)
    requires Honest(g, before) && CanStep(g, e)
    ensures Honest(Next(g, e), before + [e])
  {
    var g', es := Next(g, e), before + [e];
    assert e in es && forall d :: d in before ==> d in es;
    forall i | 0 <= i < |g'.tasks| ensures HonestTask(g', es, i) { assert HonestTask(g, before, i); }
    forall j | 0 <= j < |g'.seen| && g'.seen[j].Report? ensures Did(es, g'.seen[j].index, g'.seen[j].outcome) {
      if j < |g.seen| { assert g'.seen[j] == g.seen[j]; } else { assert HonestTask(g, before, e.i); }
    }
  }

  lemma {:induction false} RunIsHonest<T>(g: Group<T>, before: seq<Step<T>>, es: seq<Step<T>>, g': Group<T>)
    requires Honest(g, before) && Run(g, es, g')
    ensures Honest(g', before + es)
    decreases |es|
  {
    hide Honest, Next, CanStep;
    if es == [] {
      assert before + es == before;
    } else {
      StepIsHonest(g, before, es[0]);
      RunIsHonest(Next(g, es[0]), before + [es[0]], es[1..], g');
      assert before + [es[0]] + es[1..] == before + es;
    }
  }

  /** Over every run, a report is what its task came to, a value or an exception, and a read ends without
      one only if the closer was closed. */
  lemma ReportsAreTrue<T>(n: nat, es: seq<Step<T>>, g: Group<T>)
    requires Run(NewGroup(n), es, g)
    ensures forall j :: 0 <= j < |g.seen| && g.seen[j].Report? ==> Did(es, g.seen[j].index, g.seen[j].outcome)
    ensures Closed in g.seen ==> WasClosed(es)
    ensures g.closed ==> WasClosed(es)
  {
    RunIsHonest(NewGroup(n), [], es, g);
    assert [] + es == es;
  }

  // ---- Groups come to their ends -----------------------------------------------------------------

  lemma {:induction false} RunsJoin<T>(a: Group<T>, es: seq<Step<T>>, b: Group<T>, fs: seq<Step<T>>, c: Group<T>)
    requires Run(a, es, b) && Run(b, fs, c)
    ensures Run(a, es + fs, c)
    decreases |es|
  {
    hide Next, CanStep;
    if es == [] {
      assert es + fs == fs;
    } else {
      assert (es + fs)[1..] == es[1..] + fs;
      RunsJoin(Next(a, es[0]), es[1..], b, fs, c);
    }
  }

  lemma OneStep<T>(g: Group<T>, e: Step<T>)
    requires CanStep(g, e)
    ensures Run(g, [e], Next(g, e))
  {
    hide Next, CanStep;
    assert Run(Next(g, e), [], Next(g, e));
    assert [e][1..] == [];
  }

  /** A task that has not been read can come to write, while nobody has closed the closer. */
  lemma ComesToWrite<T>(g: Group<T>, i: nat) returns (es: seq<Step<T>>, g': Group<T>)
    requires GroupOk(g) && !g.closed && i < |g.tasks| && !HasReported(g.seen, i)
    ensures Run(g, es, g') && !g'.closed && g'.seen == g.seen && |g'.tasks| == |g.tasks| && Writing(g'.tasks[i])
  {
    assert TaskOk(g, i);
    var stage := g.tasks[i].stage;
    if stage.Running? {
      var g1 := Next(g, Throw(i, 1));
      OneStep(g, Throw(i, 1));
      OneStep(g1, GoOn(i));
      es, g' := [Throw(i, 1)] + [GoOn(i)], Next(g1, GoOn(i));
      RunsJoin(g, [Throw(i, 1)], g1, [GoOn(i)], g');
    } else if stage.Caught? {
      OneStep(g, GoOn(i));
      es, g' := [GoOn(i)], Next(g, GoOn(i));
    } else {
      es, g' := [], g;
    }
  }

  /** So the collector can read on. */
  lemma ReadsOne<T>(g: Group<T>) returns (es: seq<Step<T>>, g': Group<T>)
    requires GroupOk(g) && Reading(g) && !g.closed
    ensures Run(g, es, g') && GroupOk(g') && !g'.closed && |g'.tasks| == |g.tasks|
    ensures |g'.seen| == |g.seen| + 1 && g'.seen[..|g.seen|] == g.seen && g'.seen[|g.seen|].Report?
  {
    var i := SomeUnread(g);
    var fs, g1 := ComesToWrite(g, i);
    OneStep(g1, Meet(i));
    g' := Next(g1, Meet(i));
    RunsJoin(g, fs, g1, [Meet(i)], g');
    es := fs + [Meet(i)];
    hide GroupOk;
    RunKeepsOk(g, es, g');
  }

  lemma {:induction false} ReadsAll<T>(g: Group<T>) returns (es: seq<Step<T>>, g': Group<T>)
    requires GroupOk(g) && !g.closed && forall j :: 0 <= j < |g.seen| ==> g.seen[j].Report?
    ensures Run(g, es, g') && !g'.closed && |g'.seen| == |g'.tasks| == |g.tasks| && g.seen <= g'.seen
    decreases |g.tasks| - |g.seen|
  {
    hide GroupOk;
    if |g.seen| == |g.tasks| {
      es, g' := [], g;
    } else {
      assert |g.seen| <= |g.tasks| by { SeenFits(g); }
      var fs, g1 := ReadsOne(g);
      assert forall j :: 0 <= j < |g.seen| ==> g1.seen[..|g.seen|][j] == g1.seen[j];
      var gs, g2 := ReadsAll(g1);
      RunsJoin(g, fs, g1, gs, g2);
      es, g' := fs + gs, g2;
    }
  }

  lemma SeenFits<T>(g: Group<T>)
    requires GroupOk(g)
    ensures |g.seen| <= |g.tasks|
  {
  }

  /** Wherever a group is, while nobody has closed the closer: some run reads the reports of all tasks. */
  lemma UnclosedGroupFinishes<T>(n: nat, before: seq<Step<T>>, g: Group<T>)
    returns (es: seq<Step<T>>, g': Group<T>)
    requires Run(NewGroup(n), before, g) && !g.closed
    ensures Run(g, es, g') && !g'.closed && |g'.seen| == n && g.seen <= g'.seen
  {
    NewGroupOk<T>(n);
    RunKeepsOk(NewGroup(n), before, g);
    RunIsHonest(NewGroup(n), [], before, g);
    es, g' := ReadsAll(g);
  }

  /** A closed closer ends the collector's reading. */
  lemma CloserEndsTheReading<T>(g: Group<T>, timeout: bool)
    requires Reading(g)
    ensures g.closed || CanStep(g, Close(timeout))
    ensures var g1 := if g.closed then g else Next(g, Close(timeout));
            && g1 == g.(closed := true, timedOut := if g.closed then g.timedOut else timeout)
            && CanStep(g1, ReadClosed) && Next(g1, ReadClosed) == g1.(seen := g.seen + [Closed])
            && !Reading(Next(g1, ReadClosed))
  {
  }

  function Rank<T>(s: Stage<T>): nat { if s.Ended? then 0 else if s.Caught? then 1 else 2 }

  /** And once it is closed every task can end by itself, whether it is read or not. */
  lemma {:induction false} TaskEndsByItself<T>(g: Group<T>, i: nat) returns (es: seq<Step<T>>, g': Group<T>)
    requires g.closed && i < |g.tasks|
    ensures Run(g, es, g') && g' == g.(tasks := g.tasks[i := g.tasks[i].(stage := Ended)])
    decreases Rank(g.tasks[i].stage)
  {
    var stage := g.tasks[i].stage;
    if stage.Ended? {
      es, g' := [], g;
      assert g.tasks[i := g.tasks[i].(stage := Ended)] == g.tasks;
    } else {
      var e := if stage.Running? then Throw(i, 1) else if Writing(g.tasks[i]) then CloserWins(i) else GoOn(i);
      OneStep(g, e);
      var g1 := Next(g, e);
      var fs, g2 := TaskEndsByItself(g1, i);
      RunsJoin(g, [e], g1, fs, g2);
      es, g' := [e] + fs, g2;
    }
  }
}
