/** What holds in every reachable state of the scheduler, and why its pipelines drain. */
module DeployProofs {
  import opened Wrappers
  import opened Deploy

  // ------------------------------------------------------------- every run

  datatype Event =
    | Created(owner: Owner, config: Config, fileOk: bool, deployOk: bool, o: Outcome)
    | Visited(o: Outcome)
    | Manual(loopTask: bool, o: Outcome)

  function Next(s: Sched, esp32: bool, e: Event): (r: Sched) {
    match e
    case Created(owner, config, fileOk, deployOk, o) => Create(s, esp32, owner, config, fileOk, deployOk, o)
    case Visited(o) => Visit(s, o)
    case Manual(loopTask, o) => RunManually(s, loopTask, o)
  }

  function RunAll(s: Sched, esp32: bool, events: seq<Event>): (r: Sched)
    decreases |events|
  {
    if events == [] then s else RunAll(Next(s, esp32, events[0]), esp32, events[1..])
  }

  /** The steps a pipeline is made of, and what each announces as the next. */
  predicate WellFormed(t: Task) {
    && (match t.step
        case Idle => false
        case GenUploadUrl => t.next == UploadZip
        case UploadZip => t.next == DeployStep
        case UploadSources => t.next == DeployStep
        case DeployStep => t.next == Polling
        case Polling => t.setPolicy ==> t.next == SetIamPolicy
        case SetIamPolicy => true
        case Delete => true)
    && t.setPolicy == t.config.hasPolicy
    && (!t.done ==> !t.toDelete && !t.active)
  }

  /** How many listed tasks work for an object. */
  function Listed(tasks: seq<Task>, owner: Owner): (n: nat) {
    if tasks == [] then 0
    else Listed(tasks[..|tasks| - 1], owner) + (if tasks[|tasks| - 1].owner == owner then 1 else 0)
  }

  /** `base` is what other services contribute to the counts. */
  ghost predicate Inv(s: Sched, base: Owner -> int) {
    && !s.running
    && (s.tasks != [] ==> s.enabled && !AllDone(s.tasks))
    && (forall i | 0 <= i < |s.tasks| :: WellFormed(s.tasks[i]))
    && Counted(s, base)
  }

  ghost predicate Counted(s: Sched, base: Owner -> int) {
    forall owner: Owner :: Count(s.longRunning, owner) == base(owner) + Listed(s.tasks, owner)
  }

  lemma ListedSnoc(tasks: seq<Task>, t: Task, owner: Owner)
    ensures Listed(tasks + [t], owner) == Listed(tasks, owner) + (if t.owner == owner then 1 else 0)
  {
    assert (tasks + [t])[..|tasks|] == tasks;
  }

  lemma {:induction false} ReleasedCounts(m: map<Owner, int>, tasks: seq<Task>, owner: Owner)
    ensures Count(Released(m, tasks), owner) == Count(m, owner) - Listed(tasks, owner)
  {
    if tasks != [] {
      ReleasedCounts(m, tasks[..|tasks| - 1], owner);
    }
  }

  // --------------------------------------------- what a visit does to the list

  /** Whether a visit finishes the task, and the step and next step of the successor. */
  datatype Effect = Effect(finishes: bool, successor: Option<Successor>)

  datatype Successor = Successor(step: Step, next: Step)

  function SuccessorIf(c: bool, step: Step, next: Step): (r: Option<Successor>) {
    if c then Some(Successor(step, next)) else None
  }

  function EffectOf(t: Task, due: bool, o: Outcome): (e: Effect) {
    if t.done then Effect(false, None)
    else match t.step
      case GenUploadUrl => Effect(true, SuccessorIf(o.ok && o.url.Some?, t.next, DeployStep))
      case UploadSources => Effect(true, SuccessorIf(o.ok, t.next, Polling))
      case UploadZip =>
        Effect(true, SuccessorIf(o.ok && (t.config.source == LocalArchive || t.config.source == FlashData), t.next, Polling))
      case DeployStep => Effect(true, SuccessorIf(o.ok, t.next, SetIamPolicy))
      case Polling =>
        if !due || t.toDelete || t.active || !PollEnds(o) then Effect(false, None)
        else
          var st := PolledStatus(o);
          Effect(true, if st == Active then SuccessorIf(t.setPolicy, t.next, Idle)
                       else SuccessorIf(st == Unknown || st == Offline, Delete, Idle))
      case SetIamPolicy => Effect(true, None)
      case Delete => Effect(true, None)
      case Idle => Effect(false, None)
  }

  /** Equal up to the upload URL. */
  predicate Alike(t: Task, u: Task) { u == t.(uploadUrl := u.uploadUrl) }

  /** The visited task, finished or not. */
  predicate Advanced(t: Task, u: Task, finishes: bool) {
    && u.owner == t.owner && u.config == t.config && u.step == t.step && u.next == t.next && u.setPolicy == t.setPolicy
    && u.done == (t.done || finishes)
    && (!finishes ==> Alike(t, u))
  }

  predicate Shape(s: Sched, r: Sched, i: nat, e: Effect) {
    && i < |s.tasks| && |r.tasks| == |s.tasks| + (if e.successor.Some? then 1 else 0)
    && (forall k | 0 <= k < |s.tasks| && k != i :: Alike(s.tasks[k], r.tasks[k]))
    && Advanced(s.tasks[i], r.tasks[i], e.finishes)
    && (e.successor.Some? ==>
          Alike(NewTask(s.tasks[i].owner, s.tasks[i].config, e.successor.value.step, e.successor.value.next), r.tasks[|s.tasks|]))
    && r.longRunning == (if e.successor.Some? then s.longRunning[s.tasks[i].owner := Count(s.longRunning, s.tasks[i].owner) + 1]
                         else s.longRunning)
    && r.index == s.index && r.running == s.running && r.enabled == (s.enabled || e.successor.Some?)
  }

  lemma WorkShape(s: Sched, o: Outcome)
    requires s.index < |s.tasks|
    ensures Shape(s, AfterTask(s, o), s.index, EffectOf(s.tasks[s.index], PollDue(s, o), o))
  {
    hide AfterTask, EffectOf, Shape;
    match s.tasks[s.index].step
    case Polling => PollShape(s, o);
    case UploadZip => ZipShape(s, o);
    case GenUploadUrl => GenShape(s, o);
    case _ => PlainShape(s, o);
  }

  lemma MarkedShape(s: Sched)
    requires s.index < |s.tasks| && !s.tasks[s.index].done
    ensures Shape(s, MarkDone(s), s.index, Effect(true, None))
  {
  }

  /** Appending a task of the same object with the same settings adds the successor. */
  lemma AddedShape(s: Sched, r: Sched, step: Step, next: Step)
    requires s.index < |s.tasks| && Shape(s, r, s.index, Effect(true, None))
    ensures var t := s.tasks[s.index];
            Shape(s, AddTask(r, t.owner, t.config, step, next), s.index, Effect(true, Some(Successor(step, next))))
  {
  }

  lemma UrlShape(s: Sched, r: Sched, e: Effect, j: nat, url: string)
    requires s.index < |s.tasks| && Shape(s, r, s.index, e) && j < |r.tasks|
    ensures Shape(s, SetUrl(r, j, url), s.index, e)
  {
  }

  lemma TraceShape(s: Sched, r: Sched, e: Effect, trace: seq<Action>)
    requires s.index < |s.tasks| && Shape(s, r, s.index, e)
    ensures Shape(s, r.(trace := trace), s.index, e)
  {
  }

  lemma SameShape(s: Sched)
    requires s.index < |s.tasks|
    ensures Shape(s, s, s.index, Effect(false, None))
  {
  }

  lemma ShapeFits(s: Sched, r: Sched, e: Effect)
    requires s.index < |s.tasks| && Shape(s, r, s.index, e)
    ensures r.index == s.index && |r.tasks| == |s.tasks| + (if e.successor.Some? then 1 else 0)
  {
  }

  lemma PlainShape(s: Sched, o: Outcome)
    requires s.index < |s.tasks|
    requires var step := s.tasks[s.index].step; step != Polling && step != UploadZip && step != GenUploadUrl
    ensures Shape(s, AfterTask(s, o), s.index, EffectOf(s.tasks[s.index], PollDue(s, o), o))
  {
    hide PollDue, AfterPoll, Shape, AddTask, MarkDone;
    var t := s.tasks[s.index];
    SameShape(s);
    if !t.done {
      MarkedShape(s);
      AddedShape(s, MarkDone(s), t.next, Polling);
      AddedShape(s, MarkDone(s), t.next, SetIamPolicy);
    }
  }

  lemma PollShape(s: Sched, o: Outcome)
    requires s.index < |s.tasks| && s.tasks[s.index].step == Polling
    ensures Shape(s, AfterTask(s, o), s.index, EffectOf(s.tasks[s.index], PollDue(s, o), o))
  {
    hide PollDue, PollEnds;
    var t := s.tasks[s.index];
    if !t.done && PollDue(s, o) && !t.toDelete && !t.active && PollEnds(o) {
      PollEndShape(s, o);
    }
  }

  lemma PollEndShape(s: Sched, o: Outcome)
    requires s.index < |s.tasks| && s.tasks[s.index].step == Polling && !s.tasks[s.index].done
    requires PollDue(s, o) && !s.tasks[s.index].toDelete && !s.tasks[s.index].active && PollEnds(o)
    ensures Shape(s, AfterTask(s, o), s.index, EffectOf(s.tasks[s.index], PollDue(s, o), o))
  {
    hide PollDue, PollEnds;
    var st := PolledStatus(o);
    if st == Active {
    } else if st == Unknown || st == Offline {
    } else {
    }
  }

  lemma ZipShape(s: Sched, o: Outcome)
    requires s.index < |s.tasks| && s.tasks[s.index].step == UploadZip
    ensures Shape(s, AfterTask(s, o), s.index, EffectOf(s.tasks[s.index], PollDue(s, o), o))
  {
    hide PollDue, Shape, AddTask, MarkDone, SetUrl;
    var t := s.tasks[s.index];
    SameShape(s);
    if !t.done {
      var sends := t.config.source == LocalArchive || t.config.source == FlashData;
      var trace := s.trace + (if sends then [UploadedTo(t.owner, t.uploadUrl)] else []);
      var s1 := MarkDone(s).(trace := trace);
      MarkedShape(s);
      TraceShape(s, MarkDone(s), Effect(true, None), trace);
      if sends && o.ok {
        AddedShape(s, s1, t.next, Polling);
        var e := Effect(true, Some(Successor(t.next, Polling)));
        var s2 := AddTask(s1, t.owner, t.config, t.next, Polling);
        ShapeFits(s, s2, e);
        UrlShape(s, s2, e, s.index, "");
      } else {
        UrlShape(s, s1, Effect(true, None), s.index, "");
      }
    }
  }

  lemma GenShape(s: Sched, o: Outcome)
    requires s.index < |s.tasks| && s.tasks[s.index].step == GenUploadUrl
    ensures Shape(s, AfterTask(s, o), s.index, EffectOf(s.tasks[s.index], PollDue(s, o), o))
  {
    hide PollDue, Shape, AddTask, MarkDone, SetUrl;
    var t := s.tasks[s.index];
    SameShape(s);
    if !t.done {
      MarkedShape(s);
      if o.ok && o.url.Some? {
        AddedShape(s, MarkDone(s), t.next, DeployStep);
        var s2 := AddTask(MarkDone(s), t.owner, t.config, t.next, DeployStep);
        var e := Effect(true, Some(Successor(t.next, DeployStep)));
        ShapeFits(s, s2, e);
        UrlShape(s, s2, e, s.index + 1, o.url.value);
        TraceShape(s, SetUrl(s2, s.index + 1, o.url.value), e, s.trace + [Generated(t.owner, o.url.value)]);
      }
    }
  }

  lemma {:induction false} ListedAlike(a: seq<Task>, b: seq<Task>, owner: Owner)
    requires |a| == |b| && forall i | 0 <= i < |a| :: a[i].owner == b[i].owner
    ensures Listed(a, owner) == Listed(b, owner)
    decreases |a|
  {
    if a != [] {
      ListedAlike(a[..|a| - 1], b[..|b| - 1], owner);
    }
  }

  lemma ShapeCounts(s: Sched, r: Sched, i: nat, e: Effect, base: Owner -> int)
    requires Shape(s, r, i, e) && Counted(s, base)
    ensures Counted(r, base)
  {
    var n := |s.tasks|;
    forall x: Owner
      ensures Count(r.longRunning, x) == base(x) + Listed(r.tasks, x)
    {
      ListedAlike(s.tasks, r.tasks[..n], x);
      if e.successor.Some? {
        assert r.tasks == r.tasks[..n] + [r.tasks[n]];
        ListedSnoc(r.tasks[..n], r.tasks[n], x);
      } else {
        assert r.tasks == r.tasks[..n];
      }
    }
  }

  lemma SuccessorIsWellFormed(t: Task, due: bool, o: Outcome)
    requires WellFormed(t)
    ensures var e := EffectOf(t, due, o);
            e.successor.Some? ==> WellFormed(NewTask(t.owner, t.config, e.successor.value.step, e.successor.value.next))
  {
  }

  lemma ShapeKeepsTasks(s: Sched, r: Sched, i: nat, due: bool, o: Outcome)
    requires forall k | 0 <= k < |s.tasks| :: WellFormed(s.tasks[k])
    requires i < |s.tasks| && Shape(s, r, i, EffectOf(s.tasks[i], due, o))
    ensures forall k | 0 <= k < |r.tasks| :: WellFormed(r.tasks[k])
  {
    SuccessorIsWellFormed(s.tasks[i], due, o);
  }

  lemma ClearedInv(s: Sched, base: Owner -> int)
    requires Counted(s, base) && (s.tasks != [] ==> s.enabled)
    requires forall k | 0 <= k < |s.tasks| :: WellFormed(s.tasks[k])
    ensures Inv(Cleared(s).(running := false), base)
  {
    var r := Cleared(s).(running := false);
    forall x: Owner
      ensures Count(r.longRunning, x) == base(x) + Listed(r.tasks, x)
    {
      ReleasedCounts(s.longRunning, s.tasks, x);
    }
  }

  lemma VisitKeepsInv(s: Sched, o: Outcome, base: Owner -> int)
    requires Counted(s, base) && !s.running && (s.tasks != [] ==> s.enabled)
    requires forall k | 0 <= k < |s.tasks| :: WellFormed(s.tasks[k])
    ensures s.tasks != [] ==> Inv(Visit(s, o), base)
    ensures s.tasks == [] ==> Visit(s, o) == s
  {
    hide AfterTask, Cleared, Counted, EffectOf;
    if s.tasks != [] {
      var s1 := s.(running := true, index := NextIndex(s));
      var r := AfterTask(s1, o);
      WorkShape(s1, o);
      var due := PollDue(s1, o);
      var e := EffectOf(s1.tasks[s1.index], due, o);
      CountedIgnores(s, s1, base);
      ShapeCounts(s1, r, s1.index, e, base);
      ShapeKeepsTasks(s1, r, s1.index, due, o);
      ClearedInv(r, base);
    }
  }

  lemma CountedIgnores(s: Sched, r: Sched, base: Owner -> int)
    requires Counted(s, base) && r.tasks == s.tasks && r.longRunning == s.longRunning
    ensures Counted(r, base)
  {
  }

  lemma AddKeepsInv(s: Sched, esp32: bool, owner: Owner, config: Config, step: Step, next: Step, o: Outcome, base: Owner -> int)
    requires Inv(s, base) && WellFormed(NewTask(owner, config, step, next))
    ensures Inv(AddThenRun(s, esp32, owner, config, step, next, o), base)
  {
    hide Visit;
    var t := NewTask(owner, config, step, next);
    var s1 := AddTask(s, owner, config, step, next);
    forall x: Owner
      ensures Count(s1.longRunning, x) == base(x) + Listed(s1.tasks, x)
    {
      ListedSnoc(s.tasks, t, x);
    }
    assert !s1.tasks[|s.tasks|].done;
    VisitKeepsInv(s1, o, base);
  }

  /** Every event keeps the invariant; nothing else is assumed of the network, the clock or
      the caller. */
  lemma NextKeepsInv(s: Sched, esp32: bool, e: Event, base: Owner -> int)
    requires Inv(s, base)
    ensures Inv(Next(s, esp32, e), base)
  {
    hide Visit, AddThenRun;
    match e
    case Created(owner, config, fileOk, deployOk, o) =>
      var s1 := s.(loopEnabled := true);
      CountedIgnores(s, s1, base);
      match config.source {
        case LocalArchive => AddKeepsInv(s1, esp32, owner, config, GenUploadUrl, UploadZip, o, base);
        case FlashData => AddKeepsInv(s1, esp32, owner, config, GenUploadUrl, UploadZip, o, base);
        case Bucket => AddKeepsInv(s1, esp32, owner, config, UploadSources, DeployStep, o, base);
        case Other =>
          AddKeepsInv(s1, esp32, owner, config, Polling, if config.hasPolicy then SetIamPolicy else Idle, o, base);
      }
    case Visited(o) =>
      VisitKeepsInv(s, o, base);
    case Manual(loopTask, o) =>
      var s1 := s.(loopEnabled := false);
      CountedIgnores(s, s1, base);
      VisitKeepsInv(s1, o, base);
  }

  /** In every reachable state: no task is idle, undone polls are still polling, and the
      long-running count of each object is what others contribute plus the number of listed
      tasks that work for it. */
  lemma {:induction false} RunKeepsInv(s: Sched, esp32: bool, events: seq<Event>, base: Owner -> int)
    requires Inv(s, base)
    ensures Inv(RunAll(s, esp32, events), base)
    decreases |events|
  {
    if events != [] {
      NextKeepsInv(s, esp32, events[0], base);
      RunKeepsInv(Next(s, esp32, events[0]), esp32, events[1..], base);
    }
  }

  lemma {:induction false} ListedIff(tasks: seq<Task>, owner: Owner)
    ensures Listed(tasks, owner) > 0 <==> exists i :: 0 <= i < |tasks| && tasks[i].owner == owner
  {
    if tasks != [] {
      var front := tasks[..|tasks| - 1];
      ListedIff(front, owner);
      if exists i :: 0 <= i < |tasks| && tasks[i].owner == owner {
        var i :| 0 <= i < |tasks| && tasks[i].owner == owner;
        assert i < |front| ==> front[i] == tasks[i];
      }
      if Listed(front, owner) > 0 {
        var i :| 0 <= i < |front| && front[i].owner == owner;
        assert tasks[i] == front[i];
      }
    }
  }

  /** Whatever else counts as long-running for an object, in every reachable state its Firestore
      requests are refused exactly while there is such work or a deployment task is listed. */
  lemma RefusedIff(s: Sched, esp32: bool, events: seq<Event>, base: Owner -> int, owner: Owner)
    requires Inv(s, base) && base(owner) >= 0
    ensures var r := RunAll(s, esp32, events);
            Refused(r, owner) <==> base(owner) > 0 || exists i :: 0 <= i < |r.tasks| && r.tasks[i].owner == owner
  {
    RunKeepsInv(s, esp32, events, base);
    ListedIff(RunAll(s, esp32, events).tasks, owner);
  }

  /** From the start, so exactly while a deployment task for the object is listed. */
  lemma RefusedIffListed(esp32: bool, events: seq<Event>, owner: Owner)
    ensures var s := RunAll(Initial(), esp32, events);
            Refused(s, owner) <==> exists i :: 0 <= i < |s.tasks| && s.tasks[i].owner == owner
  {
    InitialInv();
    RefusedIff(Initial(), esp32, events, _ => 0, owner);
  }

  lemma InitialInv()
    ensures Inv(Initial(), _ => 0)
  {
  }
}
