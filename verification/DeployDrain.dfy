/** Deployments come to an end: a measure that falls, and a bound on the visits needed. */
module DeployDrain {
  import opened Deploy
  import opened DeployProofs

  /** How much is left of a pipeline at a step. */
  function Rank(step: Step): (n: nat) {
    match step
    case GenUploadUrl => 5
    case UploadZip => 4
    case UploadSources => 4
    case DeployStep => 3
    case Polling => 2
    case SetIamPolicy => 1
    case Delete => 1
    case Idle => 0
  }

  function TaskWork(t: Task): (n: nat) { if t.done then 0 else Rank(t.step) }

  function Work(tasks: seq<Task>): (n: nat) {
    if tasks == [] then 0 else Work(tasks[..|tasks| - 1]) + TaskWork(tasks[|tasks| - 1])
  }

  lemma {:induction false} WorkOfUpdate(a: seq<Task>, b: seq<Task>, i: nat)
    requires |a| == |b| && i < |a|
    requires forall k | 0 <= k < |a| && k != i :: TaskWork(a[k]) == TaskWork(b[k])
    ensures Work(b) == Work(a) - TaskWork(a[i]) + TaskWork(b[i])
    decreases |a|
  {
    var last := |a| - 1;
    if i < last {
      WorkOfUpdate(a[..last], b[..last], i);
    } else {
      WorkOfEqual(a[..last], b[..last]);
    }
  }

  lemma {:induction false} WorkOfEqual(a: seq<Task>, b: seq<Task>)
    requires |a| == |b| && forall k | 0 <= k < |a| :: TaskWork(a[k]) == TaskWork(b[k])
    ensures Work(a) == Work(b)
    decreases |a|
  {
    if a != [] {
      WorkOfEqual(a[..|a| - 1], b[..|b| - 1]);
    }
  }

  /** A finished step hands over to one of strictly lower rank. */
  lemma SuccessorIsLower(t: Task, due: bool, o: Outcome)
    requires WellFormed(t)
    ensures var e := EffectOf(t, due, o);
            e.successor.Some? ==> e.finishes && !t.done && Rank(e.successor.value.step) < Rank(t.step)
  {
  }

  /** The visit at hand finishes its task. */
  predicate Productive(s: Sched, o: Outcome)
    requires s.tasks != []
  {
    var t := s.tasks[NextIndex(s)];
    !t.done && (t.step == Polling ==> PollDue(s, o) && PollEnds(o))
  }

  lemma ShapeWork(s: Sched, r: Sched, i: nat, due: bool, o: Outcome)
    requires i < |s.tasks| && WellFormed(s.tasks[i])
    requires Shape(s, r, i, EffectOf(s.tasks[i], due, o))
    ensures EffectOf(s.tasks[i], due, o).finishes ==> Work(r.tasks) < Work(s.tasks) && |r.tasks| + Work(r.tasks) <= |s.tasks| + Work(s.tasks)
    ensures !EffectOf(s.tasks[i], due, o).finishes ==> Work(r.tasks) == Work(s.tasks)
  {
    hide EffectOf;
    var t := s.tasks[i];
    var e := EffectOf(t, due, o);
    var n := |s.tasks|;
    SuccessorIsLower(t, due, o);
    FinishesUndone(t, due, o);
    WorkOfUpdate(s.tasks, r.tasks[..n], i);
    if e.successor.Some? {
      assert r.tasks[..|r.tasks| - 1] == r.tasks[..n];
    } else {
      assert r.tasks == r.tasks[..n];
    }
  }

  lemma FinishesUndone(t: Task, due: bool, o: Outcome)
    requires WellFormed(t)
    ensures EffectOf(t, due, o).finishes <==> !t.done && (t.step == Polling ==> due && PollEnds(o))
    ensures !t.done ==> Rank(t.step) > 0
  {
  }

  /** The work left falls on every visit except to a finished task or a poll that is not due
      or not terminal; there it stays. */
  lemma WorkFallsIff(s: Sched, o: Outcome, base: Owner -> int)
    requires Inv(s, base) && s.tasks != []
    ensures Productive(s, o) ==> Work(Visit(s, o).tasks) < Work(s.tasks)
    ensures Productive(s, o) ==> Visit(s, o).tasks == [] || |Visit(s, o).tasks| + Work(Visit(s, o).tasks) <= |s.tasks| + Work(s.tasks)
    ensures !Productive(s, o) ==> Work(Visit(s, o).tasks) == Work(s.tasks) && Visit(s, o).tasks != []
  {
    hide AfterTask, EffectOf, Counted, Shape;
    var s1 := s.(running := true, index := NextIndex(s));
    var i := s1.index;
    var r := AfterTask(s1, o);
    assert PollDue(s1, o) == PollDue(s, o);
    WorkShape(s1, o);
    ShapeWork(s1, r, i, PollDue(s1, o), o);
    FinishesUndone(s.tasks[i], PollDue(s1, o), o);
    SomeWork(s.tasks);
    if AllDone(r.tasks) {
      NoWork(r.tasks);
    }
  }

  lemma {:induction false} NoWork(tasks: seq<Task>)
    requires AllDone(tasks)
    ensures Work(tasks) == 0
    decreases |tasks|
  {
    if tasks != [] {
      NoWork(tasks[..|tasks| - 1]);
    }
  }

  lemma {:induction false} SomeWork(tasks: seq<Task>)
    requires !AllDone(tasks) && forall i | 0 <= i < |tasks| :: WellFormed(tasks[i])
    ensures Work(tasks) > 0
    decreases |tasks|
  {
    if tasks[|tasks| - 1].done {
      SomeWork(tasks[..|tasks| - 1]);
    }
  }

  // ------------------------------------------------------------ the turn order

  function FirstUndone(tasks: seq<Task>): (i: nat)
    requires !AllDone(tasks)
    ensures i < |tasks| && !tasks[i].done
  {
    if !tasks[0].done then 0
    else
      SplitDone(tasks);
      1 + FirstUndone(tasks[1..])
  }

  lemma SplitDone(tasks: seq<Task>)
    requires tasks != [] && tasks[0].done
    ensures AllDone(tasks[1..]) ==> AllDone(tasks)
  {
    assert tasks == [tasks[0]] + tasks[1..];
  }

  /** Visits until the turn comes to `u`, the next being at `i`. */
  function Turns(i: nat, u: nat, n: nat): (k: nat)
    requires i < n && u < n
    ensures k < n
  {
    if u >= i then u - i else n - i + u
  }

  function Budget(s: Sched): (n: nat) {
    if AllDone(s.tasks) then 0
    else Work(s.tasks) * (|s.tasks| + Work(s.tasks) + 1) + Turns(NextIndex(s), FirstUndone(s.tasks), |s.tasks|)
  }

  /** A poll that is answered: due, and with a final status. */
  predicate Answered(s: Sched, o: Outcome) {
    s.tasks == [] || s.tasks[NextIndex(s)].done || Productive(s, o)
  }

  lemma BudgetArithmetic(w: nat, n: nat, w': nat, n': nat, d': nat, d: nat)
    requires w' < w && n' + w' <= n + w && d' < n'
    ensures w' * (n' + w' + 1) + d' < w * (n + w + 1) + d
  {
    assert w' * (n' + w' + 1) <= w' * (n + w + 1) <= (w - 1) * (n + w + 1);
  }

  lemma VisitOfDone(s: Sched, o: Outcome, base: Owner -> int)
    requires Inv(s, base) && s.tasks != [] && s.tasks[NextIndex(s)].done
    ensures Visit(s, o) == s.(index := NextIndex(s))
  {
  }

  /** Every answered visit brings the end nearer. */
  lemma BudgetFalls(s: Sched, o: Outcome, base: Owner -> int)
    requires Inv(s, base) && s.tasks != [] && Answered(s, o)
    ensures Visit(s, o).tasks == [] || Budget(Visit(s, o)) < Budget(s)
  {
    hide Visit, Counted;
    var r := Visit(s, o);
    VisitKeepsInv(s, o, base);
    if s.tasks[NextIndex(s)].done {
      VisitOfDone(s, o, base);
    } else {
      WorkFallsIff(s, o, base);
      if r.tasks != [] {
        BudgetArithmetic(Work(s.tasks), |s.tasks|, Work(r.tasks), |r.tasks|,
                         Turns(NextIndex(r), FirstUndone(r.tasks), |r.tasks|), Turns(NextIndex(s), FirstUndone(s.tasks), |s.tasks|));
      }
    }
  }

  function VisitAll(s: Sched, os: seq<Outcome>): (r: Sched)
    decreases |os|
  {
    if os == [] then s else VisitAll(Visit(s, os[0]), os[1..])
  }

  predicate AllAnswered(s: Sched, os: seq<Outcome>)
    decreases |os|
  {
    os == [] || (Answered(s, os[0]) && AllAnswered(Visit(s, os[0]), os[1..]))
  }

  /** From any reachable state, whatever requests succeed or fail on the way: once the polls
      are answered, the list is empty after at most the budgeted number of visits. */
  lemma {:induction false} Drains(s: Sched, os: seq<Outcome>, base: Owner -> int)
    requires Inv(s, base) && AllAnswered(s, os) && |os| > Budget(s)
    ensures VisitAll(s, os).tasks == []
    decreases |os|
  {
    hide Visit, Counted, Budget;
    var r := Visit(s, os[0]);
    VisitKeepsInv(s, os[0], base);
    if s.tasks == [] || r.tasks == [] {
      StaysEmpty(r, os[1..]);
    } else {
      BudgetFalls(s, os[0], base);
      Drains(r, os[1..], base);
    }
  }

  lemma {:induction false} StaysEmpty(s: Sched, os: seq<Outcome>)
    requires s.tasks == []
    ensures VisitAll(s, os).tasks == []
    decreases |os|
  {
    if os != [] {
      StaysEmpty(Visit(s, os[0]), os[1..]);
    }
  }

  /** While a visit is under way, another call changes nothing. */
  lemma NestedVisitIsNothing(s: Sched, o: Outcome, owner: Owner, config: Config, step: Step, next: Step, esp32: bool)
    requires s.running
    ensures Visit(s, o) == s
    ensures AddThenRun(s, esp32, owner, config, step, next, o) == AddTask(s, owner, config, step, next)
  {
  }
}
