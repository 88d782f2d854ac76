/** Task groups: n tasks report to one channel in any order, and a collector reads it n times at
    most. "All", "Any" and "Some" differ in what they make of the reports. */
module TaskGroups {
  import opened Wrappers

  /** What a task comes to: a value, or an exception (a code). */
  datatype Outcome<T> = Done(value: T) | Failed(code: nat)

  /** What a group throws: a task's exception, or one of its own. */
  datatype Error = Task(code: nat) | Cancelled | TooFewTasks | EmptyGroup

  datatype Result<T> = Ok(value: T) | Err(error: Error)

  /** What one read of the channel yields: the report of a task, or the end of the closer. */
  datatype Event<T> = Report(index: nat, outcome: Outcome<T>) | Closed

  // ---- The tasks of a group and its collector ------------------------------------------------------

  /** Where a spawned task is: it runs, writes its result, and on an exception writes that instead
      unless the closer is closed. A write that met its reader still throws if the closer closed
      (without a timeout) before the writer went on. */
  datatype Stage<T> =
    | Running
    | WritingResult(value: T)
    | Wrote
    | Caught(code: nat)
    | WritingError(code: nat)
    | Ended

  datatype Spawned<T> = Spawned(stage: Stage<T>, reports: nat)

  /** The code of the error that the closer makes a write throw. */
  const CANCEL_CODE: nat := 0

  /** The tasks, their closer, and what the collector has read. */
  datatype Group<T> = Group(tasks: seq<Spawned<T>>, closed: bool, timedOut: bool, seen: seq<Event<T>>)

  datatype Step<T> =
    | Finish(i: nat, value: T)
    | Throw(i: nat, code: nat)
    | Meet(i: nat)               // the task's write meets the collector's read
    | CloserWins(i: nat)         // the task's write is ended by the closer
    | GoOn(i: nat)
    | Close(timeout: bool)
    | ReadClosed                 // the collector's read is ended by the closer

  function NewGroup<T>(n: nat): Group<T> { Group(seq(n, _ => Spawned(Running, 0)), false, false, []) }

  /** The collector reads on: it has not read as many reports as there are tasks, and no read of its
      was ended. */
  predicate Reading<T>(g: Group<T>)
  {
    |g.seen| < |g.tasks| && (g.seen == [] || g.seen[|g.seen| - 1].Report?)
  }

  predicate Writing<T>(t: Spawned<T>) { t.stage.WritingResult? || t.stage.WritingError? }

  predicate CanStep<T>(g: Group<T>, e: Step<T>)
  {
    match e
    case Finish(i, _) => i < |g.tasks| && g.tasks[i].stage.Running?
    case Throw(i, _) => i < |g.tasks| && g.tasks[i].stage.Running?
    case Meet(i) => i < |g.tasks| && Writing(g.tasks[i]) && Reading(g)
    case CloserWins(i) => i < |g.tasks| && Writing(g.tasks[i]) && g.closed
    case GoOn(i) => i < |g.tasks| && (g.tasks[i].stage.Wrote? || g.tasks[i].stage.Caught?)
    case Close(_) => !g.closed
    case ReadClosed => Reading(g) && g.closed
  }

  function AtStage<T>(g: Group<T>, i: nat, stage: Stage<T>): Group<T>
    requires i < |g.tasks|
  {
    g.(tasks := g.tasks[i := g.tasks[i].(stage := stage)])
  }

  function Next<T>(g: Group<T>, e: Step<T>): Group<T>
    requires CanStep(g, e)
  {
    match e
    case Finish(i, value) => AtStage(g, i, WritingResult(value))
    case Throw(i, code) => AtStage(g, i, Caught(code))
    case Meet(i) =>
      var t := g.tasks[i];
      var (outcome, stage) :=
        if t.stage.WritingResult? then (Done(t.stage.value), Wrote) else (Failed(t.stage.code), Ended);
      g.(tasks := g.tasks[i := Spawned(stage, t.reports + 1)], seen := g.seen + [Report(i, outcome)])
    case CloserWins(i) => AtStage(g, i, if g.tasks[i].stage.WritingResult? then Caught(CANCEL_CODE) else Ended)
    case GoOn(i) =>
      if g.tasks[i].stage.Wrote? then AtStage(g, i, if g.closed && !g.timedOut then Caught(CANCEL_CODE) else Ended)
      else AtStage(g, i, if g.closed then Ended else WritingError(g.tasks[i].stage.code))
    case Close(timeout) => g.(closed := true, timedOut := timeout)
    case ReadClosed => g.(seen := g.seen + [Closed])
  }

  ghost predicate Run<T>(g: Group<T>, es: seq<Step<T>>, g': Group<T>)
    decreases |es|
  {
    if es == [] then g == g' else CanStep(g, es[0]) && Run(Next(g, es[0]), es[1..], g')
  }

  ghost predicate HasReported<T>(seen: seq<Event<T>>, i: nat)
  {
    exists j :: 0 <= j < |seen| && seen[j].Report? && seen[j].index == i
  }

  /** A task has been read at most once, and ends unread only if the closer is closed. */
  ghost predicate TaskOk<T>(g: Group<T>, i: nat)
    requires i < |g.tasks|
  {
    var t := g.tasks[i];
    && (t.reports == if HasReported(g.seen, i) then 1 else 0)
    && (t.stage.Running? || Writing(t) ==> t.reports == 0)
    && (t.stage.Wrote? ==> t.reports == 1)
    && (t.stage.Caught? && t.reports > 0 ==> g.closed)
    && (t.stage.Ended? && t.reports == 0 ==> g.closed)
  }

  /** Reports of different tasks, and at most one read that the closer ended, the last one. */
  ghost predicate ReadsOk<T>(g: Group<T>)
  {
    var seen := g.seen;
    && |seen| <= |g.tasks|
    && (forall i :: 0 <= i < |seen| - 1 ==> seen[i].Report?)
    && (forall i :: 0 <= i < |seen| && seen[i].Report? ==> seen[i].index < |g.tasks|)
    && (forall i, j :: 0 <= i < j < |seen| && seen[i].Report? && seen[j].Report? ==> seen[i].index != seen[j].index)
  }

  ghost predicate GroupOk<T>(g: Group<T>) { ReadsOk(g) && forall i :: 0 <= i < |g.tasks| ==> TaskOk(g, i) }

  lemma MeetKeepsOk<T>(g: Group<T>, i: nat)
    requires GroupOk(g) && CanStep(g, Meet(i))
    ensures GroupOk(Next(g, Meet(i)))
  {
    var g' := Next(g, Meet(i));
    var n := |g.seen|;
    assert TaskOk(g, i) && !HasReported(g.seen, i);
    assert forall j :: 0 <= j < n ==> g'.seen[j] == g.seen[j];
    assert g'.seen[n].Report? && g'.seen[n].index == i;
    forall k | 0 <= k < |g'.tasks| ensures TaskOk(g', k) {
      assert TaskOk(g, k);
      if HasReported(g.seen, k) {
        var j :| 0 <= j < n && g.seen[j].Report? && g.seen[j].index == k;
        assert g'.seen[j] == g.seen[j];
      }
    }
  }

  lemma StepKeepsOk<T>(g: Group<T>, e: Step<T>)
    requires GroupOk(g) && CanStep(g, e)
    ensures GroupOk(Next(g, e)) && |Next(g, e).tasks| == |g.tasks|
  {
    var g' := Next(g, e);
    if e.Meet? {
      MeetKeepsOk(g, e.i);
    } else {
      forall k | 0 <= k < |g.tasks| ensures TaskOk(g', k) {
        assert TaskOk(g, k);
        if HasReported(g.seen, k) {
          var j :| 0 <= j < |g.seen| && g.seen[j].Report? && g.seen[j].index == k;
          assert g'.seen[j] == g.seen[j];
        }
      }
    }
  }

  lemma {:induction false} RunKeepsOk<T>(g: Group<T>, es: seq<Step<T>>, g': Group<T>)
    requires GroupOk(g) && Run(g, es, g')
    ensures GroupOk(g') && |g'.tasks| == |g.tasks|
    decreases |es|
  {
    hide GroupOk, Next, CanStep;
    if es != [] {
      StepKeepsOk(g, es[0]);
      RunKeepsOk(Next(g, es[0]), es[1..], g');
    }
  }

  lemma NewGroupOk<T>(n: nat)
    ensures GroupOk(NewGroup<T>(n)) && |NewGroup<T>(n).tasks| == n
  {
  }

  /** Whatever the tasks, the closer and the collector do: a task is read at most once; and a task
      that has ended unread ended for the closer. */
  lemma TaskReportsAtMostOnce<T>(n: nat, es: seq<Step<T>>, g: Group<T>, i: nat)
    requires Run(NewGroup(n), es, g) && i < n
    ensures |g.tasks| == n && g.tasks[i].reports <= 1
    ensures g.tasks[i].reports == 1 <==> HasReported(g.seen, i)
    ensures g.tasks[i].stage.Ended? && g.tasks[i].reports == 0 ==> g.closed
  {
    NewGroupOk<T>(n);
    RunKeepsOk(NewGroup(n), es, g);
    assert TaskOk(g, i);
  }

  /** And a collector that reads on is not left waiting: either the closer ends its read, or some task
      that it has not read yet can take its next step. */
  lemma CollectorIsServed<T>(n: nat, es: seq<Step<T>>, g: Group<T>) returns (i: nat)
    requires Run(NewGroup(n), es, g) && Reading(g)
    ensures g.closed ==> CanStep(g, ReadClosed)
    ensures !g.closed ==>
              && i < n == |g.tasks| && !HasReported(g.seen, i)
              && (g.tasks[i].stage.Running? || CanStep(g, Meet(i)) || CanStep(g, GoOn(i)))
  {
    NewGroupOk<T>(n);
    RunKeepsOk(NewGroup(n), es, g);
    i := SomeUnread(g);
    assert TaskOk(g, i);
  }

  /** The reads of a collector are a stream of reports: different tasks', all of them unless the
      closer ends the reading; wherever it stops, what it has read begins such a stream. */
  lemma EveryRunIsAStream<T>(n: nat, es: seq<Step<T>>, g: Group<T>)
    requires Run(NewGroup(n), es, g)
    ensures Stream(if Reading(g) then g.seen + [Closed] else g.seen, n)
    ensures forall j :: 0 <= j < |g.seen| && g.seen[j].Report? ==>
              g.seen[j].outcome == OutcomeOf(g.seen, g.seen[j].index)
  {
    NewGroupOk<T>(n);
    RunKeepsOk(NewGroup(n), es, g);
    hide Run, TaskOk;
    forall j | 0 <= j < |g.seen| && g.seen[j].Report?
      ensures g.seen[j].outcome == OutcomeOf(g.seen, g.seen[j].index)
    {
      OneOutcome(g.seen, j);
    }
  }

  /** Of different tasks' reports, the j-th is the first of its task. */
  lemma OneOutcome<T>(seen: seq<Event<T>>, j: nat)
    requires j < |seen| && seen[j].Report?
    requires forall i :: 0 <= i < j && seen[i].Report? ==> seen[i].index != seen[j].index
    ensures OutcomeOf(seen, seen[j].index) == seen[j].outcome
  {
    var f := Find(seen, seen[j].index);
    assert f <= j;
  }

  /** What a task came to, as far as it was read. */
  function OutcomeOf<T>(seen: seq<Event<T>>, k: nat): Outcome<T>
  {
    var j := Find(seen, k);
    if j < |seen| then seen[j].outcome else Failed(CANCEL_CODE)
  }

  /** Fewer reports than tasks: some task is unread. */
  lemma SomeUnread<T>(g: Group<T>) returns (k: nat)
    requires ReadsOk(g) && Reading(g)
    ensures k < |g.tasks| && !HasReported(g.seen, k)
  {
    IndicesCount(g.seen);
    var all, read := Upto(|g.tasks|), Indices(g.seen);
    if all <= read { SmallerSubset(all, read); }
    k :| k in all && k !in read;
  }

  // ---- The reports of a group ------------------------------------------------------------------

  /** The reads of one collector of `n` tasks, were it to read to the end: reports of different
      tasks, all n of them unless the closer ends the reading. */
  ghost predicate Stream<T>(events: seq<Event<T>>, n: nat)
  {
    && |events| <= n
    && (forall i :: 0 <= i < |events| - 1 ==> events[i].Report?)
    && (forall i :: 0 <= i < |events| && events[i].Report? ==> events[i].index < n)
    && (forall i, j :: 0 <= i < j < |events| && events[i].Report? && events[j].Report? ==>
          events[i].index != events[j].index)
    && (|events| < n ==> events != [] && events[|events| - 1].Closed?)
  }

  predicate IsOk<T>(e: Event<T>) { e.Report? && e.outcome.Done? }

  predicate IsErr<T>(e: Event<T>) { e.Report? && e.outcome.Failed? }

  function Upto(n: nat): (s: set<nat>)
    ensures |s| == n && forall i: nat :: i in s <==> i < n
  {
    if n == 0 then {} else Upto(n - 1) + {n - 1}
  }

  function Indices<T>(events: seq<Event<T>>): (s: set<nat>)
    requires forall i :: 0 <= i < |events| ==> events[i].Report?
    ensures forall k :: k in s <==> exists i :: 0 <= i < |events| && events[i].index == k
  {
    if events == [] then {} else Indices(events[..|events| - 1]) + {events[|events| - 1].index}
  }

  lemma {:induction false} IndicesCount<T>(events: seq<Event<T>>)
    requires forall i :: 0 <= i < |events| ==> events[i].Report?
    requires forall i, j :: 0 <= i < j < |events| ==> events[i].index != events[j].index
    ensures |Indices(events)| == |events|
  {
    if events != [] { IndicesCount(events[..|events| - 1]); }
  }

  lemma SubsetOfSameSize(a: set<nat>, b: set<nat>)
    requires a <= b && |a| == |b|
    ensures a == b
  {
    if a != b {
      assert exists x :: x in b && x !in a;
      var x :| x in b && x !in a;
      SmallerSubset(a, b - {x});
    }
  }

  lemma {:induction false} SmallerSubset(a: set<nat>, b: set<nat>)
    requires a <= b
    ensures |a| <= |b|
    decreases |a|
  {
    if a != {} {
      var x :| x in a;
      SmallerSubset(a - {x}, b - {x});
    }
  }

  /** n reports of n different tasks: every task has reported. */
  lemma EveryTaskReported<T>(events: seq<Event<T>>, n: nat, k: nat) returns (i: nat)
    requires Stream(events, n) && |events| == n && k < n && forall i :: 0 <= i < n ==> events[i].Report?
    ensures i < n && events[i].index == k
  {
    IndicesCount(events);
    SubsetOfSameSize(Indices(events), Upto(n));
    assert k in Indices(events);
    i :| 0 <= i < n && events[i].index == k;
  }

  /** The first event that is, or is not, a success; the length if there is none. */
  function FirstOk<T>(events: seq<Event<T>>, want: bool): (i: nat)
    ensures i <= |events| && (i < |events| ==> IsOk(events[i]) == want)
    ensures forall j :: 0 <= j < i ==> IsOk(events[j]) != want
  {
    if events == [] || IsOk(events[0]) == want then 0 else 1 + FirstOk(events[1..], want)
  }

  function ErrorOf<T>(e: Event<T>): Error
    requires !IsOk(e)
  {
    if e.Closed? then Cancelled else Task(e.outcome.code)
  }

  /** Event i is the first that is not a success. */
  predicate FirstBad<T>(events: seq<Event<T>>, i: nat)
  {
    i < |events| && !IsOk(events[i]) && forall j :: 0 <= j < i ==> IsOk(events[j])
  }

  // ---- All ---------------------------------------------------------------------------------------

  /** `outcomes[k]` is what task k comes to; the events say only in which order. Whatever that
      order, all successes give all values in task order; otherwise the first event that is not a
      success decides. No empty slot is ever read. */
  method All<T>(n: nat, events: seq<Event<T>>, ghost outcomes: seq<Outcome<T>>) returns (r: Result<seq<T>>)
    requires Stream(events, n) && |outcomes| == n
    requires forall i :: 0 <= i < |events| && events[i].Report? ==> events[i].outcome == outcomes[events[i].index]
    ensures r.Ok? <==> FirstOk(events, false) == |events|
    ensures r.Ok? ==> |r.value| == n && forall k :: 0 <= k < n ==> outcomes[k] == Done(r.value[k])
    ensures r.Err? ==> r.error == ErrorOf(events[FirstOk(events, false)])
    ensures forall i: nat :: FirstBad(events, i) ==>
              if events[i].Closed? then r == Err(Cancelled)
              else var o := outcomes[events[i].index]; o.Failed? && r == Err(Task(o.code))
  {
    var slots: seq<Option<T>> := seq(n, _ => None);
    for i := 0 to n
      invariant |slots| == n && i <= |events|
      invariant forall j :: 0 <= j < i ==> IsOk(events[j]) && slots[events[j].index] == Some(events[j].outcome.value)
    {
      match events[i]
      case Closed => return Err(Cancelled);
      case Report(index, outcome) =>
        if outcome.Failed? { return Err(Task(outcome.code)); }
        slots := slots[index := Some(outcome.value)];
    }
    forall k | 0 <= k < n ensures slots[k].Some? && outcomes[k] == Done(slots[k].value) {
      var i := EveryTaskReported(events, n, k);
    }
    var values: seq<T> := [];
    for k := 0 to n
      invariant |values| == k && forall j :: 0 <= j < k ==> values[j] == slots[j].value
    {
      values := values + [slots[k].value];
    }
    return Ok(values);
  }

  // ---- Any ---------------------------------------------------------------------------------------

  /** The place of a task's report, or the length. */
  function Find<T>(events: seq<Event<T>>, k: nat): (i: nat)
    ensures i <= |events| && (i < |events| ==> events[i].Report? && events[i].index == k)
    ensures forall j :: 0 <= j < i ==> !(events[j].Report? && events[j].index == k)
  {
    if events == [] || (events[0].Report? && events[0].index == k) then 0 else 1 + Find(events[1..], k)
  }

  /** The first success in arrival order; without one, the error kept for task 0, which is never
      missing: its own error if it reported one, and the cancellation otherwise. */
  method Any<T>(n: nat, events: seq<Event<T>>) returns (r: Result<T>)
    requires Stream(events, n)
    ensures r.Ok? <==> FirstOk(events, true) < |events|
    ensures r.Ok? ==> Done(r.value) == events[FirstOk(events, true)].outcome
    ensures r.Err? && n == 0 ==> r.error == EmptyGroup
    ensures r.Err? && n > 0 ==>
              r.error == if Find(events, 0) < |events| then ErrorOf(events[Find(events, 0)]) else Cancelled
    ensures r.Err? ==> forall i :: 0 <= i < |events| && events[i].Report? && events[i].index == 0 ==>
              events[i].outcome.Failed? && r.error == Task(events[i].outcome.code)
    ensures r.Err? && n > 0 && (forall i :: 0 <= i < |events| && events[i].Report? ==> events[i].index != 0) ==>
              r.error == Cancelled
  {
    var excepts: seq<Option<Error>> := seq(n, _ => None);
    for i := 0 to n
      invariant i <= |events| && |excepts| == n
      invariant forall j :: 0 <= j < i ==>
            IsErr(events[j]) && excepts[events[j].index] == Some(Task(events[j].outcome.code))
      invariant forall k :: 0 <= k < n && excepts[k].Some? ==> exists j ::
            0 <= j < i && events[j].Report? && events[j].index == k
    {
      match events[i]
      case Report(index, outcome) =>
        if outcome.Done? { return Ok(outcome.value); }
        excepts := excepts[index := Some(Task(outcome.code))];
      case Closed =>
        excepts := FillMissing(excepts);
        break;
    }
    if n == 0 { return Err(EmptyGroup); }
    if forall j :: 0 <= j < |events| ==> events[j].Report? {
      var j := EveryTaskReported(events, n, 0);
    }
    return Err(excepts[0].value);
  }

  method FillMissing(excepts: seq<Option<Error>>) returns (r: seq<Option<Error>>)
    ensures |r| == |excepts|
    ensures forall k :: 0 <= k < |r| ==> r[k] == if excepts[k].Some? then excepts[k] else Some(Cancelled)
  {
    r := excepts;
    for k := 0 to |r|
      invariant |r| == |excepts|
      invariant forall m :: 0 <= m < |r| ==> r[m] == if excepts[m].Some? || m >= k then excepts[m] else Some(Cancelled)
    {
      if r[k].None? { r := r[k := Some(Cancelled)]; }
    }
  }

  // ---- Some ----------------------------------------------------------------------------------------

  function Succeeded<T>(events: seq<Event<T>>): set<nat>
  {
    if events == [] then {}
    else
      var e := events[|events| - 1];
      Succeeded(events[..|events| - 1]) + if IsOk(e) then {e.index} else {}
  }

  function Failures<T>(events: seq<Event<T>>): nat
  {
    if events == [] then 0 else Failures(events[..|events| - 1]) + if IsErr(events[|events| - 1]) then 1 else 0
  }

  lemma CountsStep<T>(events: seq<Event<T>>, i: nat)
    requires i < |events|
    ensures Succeeded(events[..i + 1]) == Succeeded(events[..i]) + if IsOk(events[i]) then {events[i].index} else {}
    ensures Failures(events[..i + 1]) == Failures(events[..i]) + if IsErr(events[i]) then 1 else 0
  {
    assert events[..i + 1][..i] == events[..i];
  }

  /** The counts of a prefix are at most those of the whole, and every event counts once. */
  lemma {:induction false} CountsBounds<T>(events: seq<Event<T>>, i: nat)
    requires i <= |events|
    ensures Succeeded(events[..i]) <= Succeeded(events) && |Succeeded(events[..i])| <= |Succeeded(events)|
    ensures Failures(events[..i]) <= Failures(events)
    ensures |Succeeded(events)| + Failures(events) <= |events|
  {
    if events != [] {
      var m := |events| - 1;
      assert events[..m + 1] == events;
      CountsStep(events, m);
      if i <= m {
        CountsBounds(events[..m], i);
        assert events[..m][..i] == events[..i];
      } else {
        CountsBounds(events[..m], m);
        assert events[..i] == events;
      }
    }
    SmallerSubset(Succeeded(events[..i]), Succeeded(events));
  }

  lemma {:induction false} SucceededReported<T>(events: seq<Event<T>>, k: nat)
    requires k in Succeeded(events)
    ensures exists i :: 0 <= i < |events| && IsOk(events[i]) && events[i].index == k
  {
    var m := |events| - 1;
    if k in Succeeded(events[..m]) {
      SucceededReported(events[..m], k);
      var i :| 0 <= i < m && IsOk(events[..m][i]) && events[..m][i].index == k;
      assert IsOk(events[i]) && events[i].index == k;
    } else {
      assert IsOk(events[m]);
    }
  }

  /** One more event read: what it adds, and how the counts so far bound the final ones. */
  lemma CountsProgress<T>(events: seq<Event<T>>, n: nat, i: nat, ok: set<nat>, failed: nat)
    requires Stream(events, n) && i < |events|
    requires ok == Succeeded(events[..i]) && failed == Failures(events[..i]) && |ok| + failed == i
    ensures |Succeeded(events)| + Failures(events) <= n
    ensures events[i].Closed? ==> Succeeded(events) == ok && Failures(events) == failed
    ensures events[i].Report? ==> i + 1 < n ==> i + 1 < |events|
    ensures IsErr(events[i]) ==>
              && Succeeded(events[..i + 1]) == ok && Failures(events[..i + 1]) == failed + 1
              && ok <= Succeeded(events) && failed + 1 <= Failures(events)
    ensures IsOk(events[i]) ==>
              var ok' := ok + {events[i].index};
              && Succeeded(events[..i + 1]) == ok' && Failures(events[..i + 1]) == failed && |ok'| == |ok| + 1
              && ok' <= Succeeded(events) && |ok'| <= |Succeeded(events)| && failed <= Failures(events)
  {
    hide Succeeded, Failures;
    CountsStep(events, i);
    CountsBounds(events, i + 1);
    if IsOk(events[i]) && events[i].index in ok {
      SucceededReported(events[..i], events[i].index);
    }
    if events[i].Closed? { assert events[..i + 1] == events; }
  }

  /** What a quorum of `target` among n comes to, whatever the order: exactly `target` distinct indices
      of successful tasks if at least `target` tasks succeed; a task's own error if so many failed
      that the quorum is out of reach; and the cancellation only if neither happened before it. */
  ghost predicate QuorumOf<T>(events: seq<Event<T>>, n: nat, target: nat, r: Result<set<nat>>)
  {
    && (r.Ok? <==> |Succeeded(events)| >= target)
    && (r.Ok? ==> |r.value| == target && r.value <= Succeeded(events))
    && (r.Err? && r.error.Task? <==> Failures(events) > n - target)
    && (r.Err? && r.error.Task? ==>
          exists i :: 0 <= i < |events| && IsErr(events[i]) && r.error.code == events[i].outcome.code)
    && (r.Err? && !r.error.Task? ==> r.error == Cancelled)
  }

  lemma QuorumMet<T>(events: seq<Event<T>>, n: nat, target: nat, ok: set<nat>)
    requires target <= n && |ok| == target && ok <= Succeeded(events)
    requires |ok| <= |Succeeded(events)| && |Succeeded(events)| + Failures(events) <= n
    ensures QuorumOf(events, n, target, Ok(ok))
  {
    hide Succeeded, Failures;
  }

  lemma QuorumMissed<T>(events: seq<Event<T>>, n: nat, target: nat, i: nat)
    requires target <= n && i < |events| && IsErr(events[i])
    requires Failures(events) > n - target && |Succeeded(events)| + Failures(events) <= n
    ensures QuorumOf(events, n, target, Err(Task(events[i].outcome.code)))
  {
    hide Succeeded, Failures;
  }

  lemma QuorumCancelled<T>(events: seq<Event<T>>, n: nat, target: nat)
    requires |Succeeded(events)| < target && Failures(events) <= n - target
    ensures QuorumOf(events, n, target, Err(Cancelled))
  {
    hide Succeeded, Failures;
  }

  /** And for a target of 0, which is only looked at after a report: nobody, if the first report is a
      failure or there are no tasks; else everyone who succeeded, once all have reported; and the
      cancellation if the closer came before. */
  ghost predicate QuorumOfNone<T>(events: seq<Event<T>>, r: Result<set<nat>>)
  {
    r == if events == [] || IsErr(events[0]) then Ok({})
         else if events[|events| - 1].Closed? then Err(Cancelled)
         else Ok(Succeeded(events))
  }

  /** Where the loop stands after i reports: what it has counted, and that it had no reason to stop. */
  ghost predicate Counting<T>(events: seq<Event<T>>, n: nat, target: nat, i: nat, ok: set<nat>, succeed: nat,
    failed: nat)
  {
    && i <= |events| && (i < n ==> i < |events|) && (forall j :: 0 <= j < i ==> events[j].Report?)
    && ok == Succeeded(events[..i]) && |ok| == succeed && failed == Failures(events[..i])
    && succeed + failed == i && failed <= n - target
    && (if target == 0 then i == 0 || !IsErr(events[0]) else succeed < target)
  }

  lemma CountingStarts<T>(events: seq<Event<T>>, n: nat, target: nat)
    requires Stream(events, n) && target <= n
    ensures Counting(events, n, target, 0, {}, 0, 0)
  {
    EmptyCounts(events);
    hide Succeeded, Failures;
  }

  /** A success: the loop ends with its quorum or goes on. */
  lemma CountsSuccess<T>(events: seq<Event<T>>, n: nat, target: nat, i: nat, ok: set<nat>, failed: nat)
    requires Stream(events, n) && target <= n && i < |events| && IsOk(events[i])
    requires Counting(events, n, target, i, ok, |ok|, failed)
    ensures var ok' := ok + {events[i].index};
            && |ok'| == |ok| + 1
            && (|ok'| == target ==> QuorumOf(events, n, target, Ok(ok')))
            && (|ok'| != target ==> Counting(events, n, target, i + 1, ok', |ok'|, failed))
  {
    hide Succeeded, Failures, Stream, QuorumOf;
    CountsProgress(events, n, i, ok, failed);
    var ok' := ok + {events[i].index};
    if |ok'| == target { QuorumMet(events, n, target, ok'); }
  }

  /** A failure: the loop ends with an error, or, when nobody is asked for, with nobody; or it goes on. */
  lemma CountsFailure<T>(events: seq<Event<T>>, n: nat, target: nat, i: nat, ok: set<nat>, failed: nat)
    requires Stream(events, n) && target <= n && i < |events| && IsErr(events[i])
    requires Counting(events, n, target, i, ok, |ok|, failed)
    ensures failed + 1 > n - target ==>
              1 <= target && QuorumOf(events, n, target, Err(Task(events[i].outcome.code)))
    ensures failed + 1 <= n - target && |ok| == target ==> target == 0 && QuorumOfNone(events, Ok(ok))
    ensures failed + 1 <= n - target && |ok| != target ==> Counting(events, n, target, i + 1, ok, |ok|, failed + 1)
  {
    CountsProgress(events, n, i, ok, failed);
    if target == 0 && ok == {} { NobodyYet(events, i); }
    hide Succeeded, Failures, Stream, QuorumOf;
    if failed + 1 > n - target { QuorumMissed(events, n, target, i); }
  }

  /** Reports without a success begin with a failure. */
  lemma NobodyYet<T>(events: seq<Event<T>>, i: nat)
    requires i <= |events| && Succeeded(events[..i]) == {} && forall j :: 0 <= j < i ==> events[j].Report?
    ensures i > 0 ==> IsErr(events[0])
  {
    if i > 0 && IsOk(events[0]) { ReportedSucceeded(events[..i], 0); }
  }

  /** The closer, or the end of the reports. */
  lemma CountingEnds<T>(events: seq<Event<T>>, n: nat, target: nat, i: nat, ok: set<nat>, failed: nat)
    requires Stream(events, n) && target <= n && Counting(events, n, target, i, ok, |ok|, failed)
    ensures i < |events| && events[i].Closed? ==>
              if target == 0 then QuorumOfNone(events, Err(Cancelled)) else QuorumOf(events, n, target, Err(Cancelled))
    ensures i == n ==> target == 0 && QuorumOfNone(events, Ok(ok))
  {
    if i < |events| { CountsProgress(events, n, i, ok, failed); }
    assert i == n ==> events[..i] == events;
    hide Succeeded, Failures, QuorumOf;
    if i < |events| && events[i].Closed? && target >= 1 { QuorumCancelled(events, n, target); }
  }

  method Quorum<T>(n: nat, target: nat, events: seq<Event<T>>) returns (r: Result<set<nat>>)
    requires Stream(events, n)
    ensures target > n ==> r == Err(TooFewTasks)
    ensures 1 <= target <= n ==> QuorumOf(events, n, target, r)
    ensures target == 0 ==> QuorumOfNone(events, r)
  {
    if target > n { return Err(TooFewTasks); }
    var succeed, failed := 0, 0;
    var result: set<nat> := {};
    CountingStarts(events, n, target);
    hide Succeeded, Failures, Stream, QuorumOf, QuorumOfNone;
    for i := 0 to n
      invariant Counting(events, n, target, i, result, succeed, failed)
    {
      CountingEnds(events, n, target, i, result, failed);
      if events[i].Closed? { return Err(Cancelled); }
      if events[i].outcome.Failed? {
        CountsFailure(events, n, target, i, result, failed);
        failed := failed + 1;
      } else {
        CountsSuccess(events, n, target, i, result, failed);
        result, succeed := result + {events[i].index}, succeed + 1;
      }
      if failed > n - target { return Err(Task(events[i].outcome.code)); }
      if succeed == target { return Ok(result); }
    }
    CountingEnds(events, n, target, n, result, failed);
    return Ok(result);
  }

  lemma {:induction false} ReportedSucceeded<T>(events: seq<Event<T>>, i: nat)
    requires i < |events| && IsOk(events[i])
    ensures events[i].index in Succeeded(events)
  {
    CountsStep(events, i);
    CountsBounds(events, i + 1);
  }

  /** Once all n tasks have reported, the successes counted are those of the tasks themselves: the
      order of the reports is gone. */
  lemma SuccessesHaveNoOrder<T>(events: seq<Event<T>>, n: nat, outcomes: seq<Outcome<T>>)
    requires Stream(events, n) && |events| == n == |outcomes|
    requires forall i :: 0 <= i < n ==> events[i].Report? && events[i].outcome == outcomes[events[i].index]
    ensures Succeeded(events) == set k | 0 <= k < n && outcomes[k].Done?
  {
    forall k | k in Succeeded(events) ensures k < n && outcomes[k].Done? {
      SucceededReported(events, k);
    }
    forall k: nat | k < n && outcomes[k].Done? ensures k in Succeeded(events) {
      var i := EveryTaskReported(events, n, k);
      ReportedSucceeded(events, i);
    }
  }

  lemma EmptyCounts<T>(events: seq<Event<T>>)
    ensures Succeeded(events[..0]) == {} && Failures(events[..0]) == 0
  {
  }
}
