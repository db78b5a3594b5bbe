/** When the scheduler polls, told from the time since power-up, of which it sees a counter that
    goes round; and a deployment that goes well from its start to its end. */
module DeployClock {
  import opened Wrappers
  import opened Deploy
  import opened DeployProofs
  import opened DeployDrain

  lemma Remainder(x: int, q: int)
    requires q * MILLIS_WRAP <= x < (q + 1) * MILLIS_WRAP
    ensures x % MILLIS_WRAP == x - q * MILLIS_WRAP
  {
  }

  /** The difference of two readings is the time between them, as long as the counter has not gone
      all the way round. */
  lemma ReadingsApart(u: nat, v: nat)
    requires u <= v < u + MILLIS_WRAP
    ensures (Millis(v) - Millis(u)) % MILLIS_WRAP == v - u
  {
    var p, q := u / MILLIS_WRAP, v / MILLIS_WRAP;
    Remainder(u, p);
    Remainder(v, q);
    assert Millis(v) - Millis(u) == (v - u) - (q - p) * MILLIS_WRAP;
    Remainder(Millis(v) - Millis(u), p - q);
  }

  /** A poll is due at `v` exactly if more than five seconds have passed since the one recorded at
      `u`; a reading of zero counts as none. */
  lemma PollIsDueIff(s: Sched, u: nat, o: Outcome)
    requires s.lastPollMs == Millis(u) && u <= o.uptime < u + MILLIS_WRAP
    ensures Millis(u) != 0 ==> (PollDue(s, o) <==> o.uptime - u > 5000)
    ensures Millis(u) == 0 ==> PollDue(s, o)
  {
    ReadingsApart(u, o.uptime);
  }

  /** A visit to an unfinished poll asks, records its own time, and is finished by a final status or
      a failed request, exactly when that poll is due; otherwise it leaves everything as it is. */
  lemma VisitPollsIff(s: Sched, o: Outcome, base: Owner -> int)
    requires Inv(s, base) && s.tasks != []
    requires var t := s.tasks[NextIndex(s)]; !t.done && t.step == Polling
    ensures var r := Visit(s, o);
            if PollDue(s, o) then
              && r.trace == s.trace + [Polled(o.uptime)] && r.lastPollMs == Millis(o.uptime)
              && (Work(r.tasks) < Work(s.tasks) <==> !o.ok || o.status == Active || o.status == Unknown || o.status == Offline)
            else r == s.(index := NextIndex(s))
  {
    hide AfterTask, PollDue, Counted, EffectOf, Shape, Work;
    WorkFallsIff(s, o, base);
    var v := s.(running := true, index := NextIndex(s));
    assert WellFormed(v.tasks[v.index]);
    SameDue(s, v, o);
    PollingStep(v, o);
  }

  lemma SameDue(s: Sched, v: Sched, o: Outcome)
    requires v.lastPollMs == s.lastPollMs
    ensures PollDue(v, o) == PollDue(s, o)
  {
  }

  lemma PollingStep(s: Sched, o: Outcome)
    requires s.index < |s.tasks| && WellFormed(s.tasks[s.index])
    requires !s.tasks[s.index].done && s.tasks[s.index].step == Polling
    ensures var r := AfterTask(s, o);
            if PollDue(s, o) then r.trace == s.trace + [Polled(o.uptime)] && r.lastPollMs == Millis(o.uptime) else r == s
  {
    hide PollDue;
  }

  // --------------------------------------------------------------- every run

  /** The last poll on record. */
  function LastPoll(trace: seq<Action>): (u: Option<nat>) {
    if trace == [] then None
    else if trace[|trace| - 1].Polled? then Some(trace[|trace| - 1].uptime)
    else LastPoll(trace[..|trace| - 1])
  }

  /** Each poll comes more than five seconds after the one before it, unless the counter has gone
      round in between, or showed zero at the earlier one. */
  predicate Spaced(trace: seq<Action>) {
    trace != [] ==>
      var before, a := trace[..|trace| - 1], trace[|trace| - 1];
      && Spaced(before)
      && (a.Polled? && LastPoll(before).Some? ==>
            var u := LastPoll(before).value;
            Millis(u) != 0 && u <= a.uptime < u + MILLIS_WRAP ==> a.uptime - u > 5000)
  }

  /** The recorded reading is that of the last poll. */
  predicate PollsKept(s: Sched) {
    s.lastPollMs == (if LastPoll(s.trace).Some? then Millis(LastPoll(s.trace).value) else 0) && Spaced(s.trace)
  }

  lemma OtherAction(trace: seq<Action>, a: Action)
    requires Spaced(trace) && !a.Polled?
    ensures Spaced(trace + [a]) && LastPoll(trace + [a]) == LastPoll(trace)
  {
    assert (trace + [a])[..|trace|] == trace;
  }

  lemma PolledAction(s: Sched, o: Outcome)
    requires PollsKept(s) && PollDue(s, o)
    ensures Spaced(s.trace + [Polled(o.uptime)]) && LastPoll(s.trace + [Polled(o.uptime)]) == Some(o.uptime)
  {
    hide PollDue, Millis;
    var trace := s.trace + [Polled(o.uptime)];
    assert trace[..|s.trace|] == s.trace;
    if LastPoll(s.trace).Some? {
      var u := LastPoll(s.trace).value;
      if u <= o.uptime < u + MILLIS_WRAP { PollIsDueIff(s, u, o); }
    }
  }

  lemma WorkKeepsPolls(s: Sched, o: Outcome)
    requires s.index < |s.tasks| && WellFormed(s.tasks[s.index]) && PollsKept(s)
    ensures PollsKept(AfterTask(s, o))
  {
    hide Spaced, LastPoll, PollDue, Millis;
    var t := s.tasks[s.index];
    if !t.done {
      match t.step {
        case Polling =>
          PollingStep(s, o);
          if PollDue(s, o) { PolledAction(s, o); }
        case GenUploadUrl =>
          if o.ok && o.url.Some? { OtherAction(s.trace, Generated(t.owner, o.url.value)); }
        case UploadZip =>
          OtherAction(s.trace, UploadedTo(t.owner, t.uploadUrl));
          assert s.trace + [] == s.trace;
        case _ =>
      }
    }
  }

  lemma VisitKeepsPolls(s: Sched, o: Outcome)
    requires PollsKept(s) && forall i | 0 <= i < |s.tasks| :: WellFormed(s.tasks[i])
    ensures PollsKept(Visit(s, o))
  {
    hide AfterTask, WellFormed, LastPoll, Spaced, Millis;
    if !s.running && s.enabled && s.tasks != [] {
      WorkKeepsPolls(s.(running := true, index := NextIndex(s)), o);
    }
  }

  lemma NextKeepsPolls(s: Sched, esp32: bool, e: Event, base: Owner -> int)
    requires Inv(s, base) && PollsKept(s)
    ensures PollsKept(Next(s, esp32, e))
  {
    hide Visit, Counted, LastPoll, Spaced, Millis;
    match e
    case Created(owner, config, fileOk, deployOk, o) =>
      var s1 := s.(loopEnabled := true);
      match config.source {
        case LocalArchive => AddKeepsPolls(s1, esp32, owner, config, GenUploadUrl, UploadZip, o);
        case FlashData => AddKeepsPolls(s1, esp32, owner, config, GenUploadUrl, UploadZip, o);
        case Bucket => AddKeepsPolls(s1, esp32, owner, config, UploadSources, DeployStep, o);
        case Other =>
          AddKeepsPolls(s1, esp32, owner, config, Polling, if config.hasPolicy then SetIamPolicy else Idle, o);
      }
    case Visited(o) => VisitKeepsPolls(s, o);
    case Manual(loopTask, o) => VisitKeepsPolls(s.(loopEnabled := false), o);
  }

  lemma AddKeepsPolls(s: Sched, esp32: bool, owner: Owner, config: Config, step: Step, next: Step, o: Outcome)
    requires PollsKept(s) && (forall i | 0 <= i < |s.tasks| :: WellFormed(s.tasks[i]))
    requires step == GenUploadUrl || step == UploadSources || step == Polling
    requires WellFormed(NewTask(owner, config, step, next))
    ensures PollsKept(AddThenRun(s, esp32, owner, config, step, next, o))
  {
    hide Visit, WellFormed, LastPoll, Spaced, Millis;
    VisitKeepsPolls(AddTask(s, owner, config, step, next), o);
  }

  /** Over every run, whatever is created and however often the scheduler is called: two successive
      polls are more than five seconds apart. */
  lemma {:induction false} PollsAreSpaced(s: Sched, esp32: bool, events: seq<Event>, base: Owner -> int)
    requires Inv(s, base) && PollsKept(s)
    ensures PollsKept(RunAll(s, esp32, events))
    decreases |events|
  {
    hide Inv, Next, PollsKept;
    if events != [] {
      NextKeepsInv(s, esp32, events[0], base);
      NextKeepsPolls(s, esp32, events[0], base);
      PollsAreSpaced(Next(s, esp32, events[0]), esp32, events[1..], base);
    }
  }

  lemma PollsAreSpacedFromStart(esp32: bool, events: seq<Event>)
    ensures Spaced(RunAll(Initial(), esp32, events).trace)
  {
    InitialInv();
    PollsAreSpaced(Initial(), esp32, events, _ => 0);
  }

  // ---------------------------------------------------------- draining in time

  /** Visits more than five seconds apart, within one round of the counter from `first` on, that
      find every request failed or the deployment in a final status. */
  predicate Paced(first: nat, os: seq<Outcome>) {
    && (forall i | 0 <= i < |os| :: first <= os[i].uptime < first + MILLIS_WRAP && PollEnds(os[i]))
    && (forall i, j | 0 <= i < j < |os| :: os[j].uptime - os[i].uptime > 5000)
  }

  lemma LastPollIs(s: Sched, o: Outcome)
    ensures Visit(s, o).lastPollMs == s.lastPollMs || Visit(s, o).lastPollMs == Millis(o.uptime)
  {
    hide AfterTask;
    if !s.running && s.enabled && s.tasks != [] {
      LastPollAfterWork(s.(running := true, index := NextIndex(s)), o);
    }
  }

  lemma LastPollAfterWork(s: Sched, o: Outcome)
    requires s.index < |s.tasks|
    ensures AfterTask(s, o).lastPollMs == s.lastPollMs || AfterTask(s, o).lastPollMs == Millis(o.uptime)
  {
    hide AfterPoll, Millis;
    LastPollAfterPoll(s, o);
  }

  lemma LastPollAfterPoll(s: Sched, o: Outcome)
    requires s.index < |s.tasks|
    ensures AfterPoll(s, o).lastPollMs == s.lastPollMs || AfterPoll(s, o).lastPollMs == Millis(o.uptime)
  {
    hide PollDue, Millis;
  }

  lemma {:induction false} PacedIsAnswered(s: Sched, u: nat, os: seq<Outcome>, base: Owner -> int)
    requires Inv(s, base) && Paced(u, os) && (s.lastPollMs == 0 || s.lastPollMs == Millis(u))
    requires s.lastPollMs == 0 || (forall i | 0 <= i < |os| :: os[i].uptime - u > 5000)
    ensures AllAnswered(s, os)
    decreases |os|
  {
    hide Counted, Visit, PollDue, PollEnds, Millis;
    if os != [] {
      var o := os[0];
      var r := Visit(s, o);
      VisitKeepsInv(s, o, base);
      LastPollIs(s, o);
      DueInTime(s, u, o);
      AnsweredIfDue(s, o);
      assert forall i | 0 <= i < |os| - 1 :: os[1..][i] == os[i + 1];
      if r.lastPollMs == s.lastPollMs {
        PacedIsAnswered(r, u, os[1..], base);
      } else {
        assert Paced(o.uptime, os[1..]);
        PacedIsAnswered(r, o.uptime, os[1..], base);
      }
    }
  }

  lemma DueInTime(s: Sched, u: nat, o: Outcome)
    requires s.lastPollMs == 0 || (s.lastPollMs == Millis(u) && u + 5000 < o.uptime < u + MILLIS_WRAP)
    ensures PollDue(s, o)
  {
    if s.lastPollMs != 0 { PollIsDueIff(s, u, o); }
  }

  lemma AnsweredIfDue(s: Sched, o: Outcome)
    requires PollDue(s, o) && PollEnds(o)
    ensures Answered(s, o)
  {
  }

  /** So deployments drain when the scheduler is called more than five seconds apart and the
      service answers: after at most the budgeted number of visits nothing is listed. */
  lemma DrainsInTime(s: Sched, u: nat, os: seq<Outcome>, base: Owner -> int)
    requires Inv(s, base) && Paced(u, os) && |os| > Budget(s)
    requires s.lastPollMs == 0 || (s.lastPollMs == Millis(u) && forall i | 0 <= i < |os| :: os[i].uptime - u > 5000)
    ensures VisitAll(s, os).tasks == []
  {
    hide Inv, Budget, VisitAll, AllAnswered;
    PacedIsAnswered(s, u, os, base);
    Drains(s, os, base);
  }

  /** A final status ends the poll; what follows depends on it: the policy if the function is active
      and there is one, its deletion if it is lost, and nothing otherwise. */
  lemma StatusDecides(s: Sched, o: Outcome)
    requires s.index < |s.tasks| && WellFormed(s.tasks[s.index]) && PollDue(s, o) && PollEnds(o)
    requires !s.tasks[s.index].done && s.tasks[s.index].step == Polling
    ensures var t, r := s.tasks[s.index], AfterTask(s, o).tasks;
            var follows := o.ok && (o.status == Unknown || o.status == Offline || (o.status == Active && t.config.hasPolicy));
            && r[s.index].done && |r| == |s.tasks| + (if follows then 1 else 0)
            && (follows ==> r[|s.tasks|].owner == t.owner && r[|s.tasks|].step == if o.status == Active then SetIamPolicy else Delete)
  {
    hide PollDue;
  }

  /** Any other step is finished by its visit, and hands over to the next of its pipeline exactly if
      its request succeeded. */
  lemma StepHandsOver(s: Sched, o: Outcome)
    requires s.index < |s.tasks| && WellFormed(s.tasks[s.index]) && !s.tasks[s.index].done && s.tasks[s.index].step != Polling
    requires s.tasks[s.index].step == UploadZip ==> Archive(s.tasks[s.index].config)
    ensures
      var t, r := s.tasks[s.index], AfterTask(s, o).tasks;
      var follows := o.ok && (t.step == UploadSources || t.step == UploadZip || t.step == DeployStep || (t.step == GenUploadUrl && o.url.Some?));
      && r[s.index].done && |r| == |s.tasks| + (if follows then 1 else 0)
      && (follows ==>
            && r[|s.tasks|].owner == t.owner && r[|s.tasks|].config == t.config && WellFormed(r[|s.tasks|])
            && r[|s.tasks|].step == if t.step == GenUploadUrl then UploadZip else if t.step == DeployStep then Polling else DeployStep)
  {
    hide AfterTask, PollDue;
    WorkShape(s, o);
  }

  // --------------------------------------------------------- one whole pipeline

  predicate Archive(config: Config) { config.source == LocalArchive || config.source == FlashData }

  predicate Accepted(config: Config, fileOk: bool, deployOk: bool) {
    (config.source == LocalArchive ==> fileOk) && (config.source == Other ==> deployOk)
  }

  /** The task is new, and its step the first for its kind of source. */
  predicate BeginsPipeline(t: Task, owner: Owner, config: Config) {
    && WellFormed(t) && t.owner == owner && t.config == config && !t.done
    && (t.step == GenUploadUrl <==> Archive(config)) && (t.step == UploadSources <==> config.source == Bucket)
    && (t.step == Polling <==> config.source == Other)
  }

  /** Only tasks are appended, and counted. */
  lemma AddLists(s: Sched, owner: Owner, config: Config, step: Step, next: Step)
    ensures var r := AddTask(s, owner, config, step, next);
            && r.tasks == s.tasks + [NewTask(owner, config, step, next)] && r.enabled
            && Count(r.longRunning, owner) == Count(s.longRunning, owner) + 1
  {
  }

  /** An accepted creation lists one task, with the first step of its kind of source, and counts it;
      any other changes no task. */
  lemma CreationLists(s: Sched, owner: Owner, config: Config, fileOk: bool, deployOk: bool, o: Outcome)
    ensures
      var r := Create(s, true, owner, config, fileOk, deployOk, o);
      if Accepted(config, fileOk, deployOk) then
        && |r.tasks| == |s.tasks| + 1 && s.tasks <= r.tasks && r.enabled
        && Count(r.longRunning, owner) == Count(s.longRunning, owner) + 1
        && BeginsPipeline(r.tasks[|s.tasks|], owner, config)
      else r == s.(loopEnabled := true)
  {
    hide Visit, AddTask, Count;
    var s1 := s.(loopEnabled := true);
    AddLists(s1, owner, config, GenUploadUrl, UploadZip);
    AddLists(s1, owner, config, UploadSources, DeployStep);
    AddLists(s1, owner, config, Polling, if config.hasPolicy then SetIamPolicy else Idle);
  }

  /** Off the ESP32 the first creation also makes the first visit. */
  lemma FirstCreationVisits(s: Sched, owner: Owner, config: Config, fileOk: bool, deployOk: bool, o: Outcome)
    ensures
      var listed := Create(s, true, owner, config, fileOk, deployOk, o);
      Create(s, false, owner, config, fileOk, deployOk, o) ==
      if s.tasks == [] && Accepted(config, fileOk, deployOk) then Visit(listed, o) else listed
  {
    hide Visit, AddTask;
    var s1 := s.(loopEnabled := true);
    AddLists(s1, owner, config, GenUploadUrl, UploadZip);
    AddLists(s1, owner, config, UploadSources, DeployStep);
    AddLists(s1, owner, config, Polling, if config.hasPolicy then SetIamPolicy else Idle);
  }

  /** What the visits of one deployment meet when everything goes well. */
  predicate GoesWell(s: Sched, os: seq<Outcome>) {
    && |os| == 5 && (forall i | 0 <= i < |os| :: os[i].ok && os[i].status == Active && os[i].url.Some?)
    && PollDue(s, os[3])
  }

  function ListOf(owner: Owner, config: Config, k: nat, url: string): (tasks: seq<Task>)
    requires k < 5
  {
    var generate := NewTask(owner, config, GenUploadUrl, UploadZip);
    var upload := NewTask(owner, config, UploadZip, DeployStep);
    var deploy := NewTask(owner, config, DeployStep, Polling);
    var poll := NewTask(owner, config, Polling, SetIamPolicy);
    var policy := NewTask(owner, config, SetIamPolicy, Idle);
    if k == 0 then [generate]
    else if k == 1 then [generate.(done := true), upload.(uploadUrl := url)]
    else if k == 2 then [generate.(done := true), upload.(done := true), deploy]
    else if k == 3 then [generate.(done := true), upload.(done := true), deploy.(done := true), poll]
    else [generate.(done := true), upload.(done := true), deploy.(done := true),
          poll.(done := true, toDelete := true, active := true), policy]
  }

  /** The list before visit `k`, and what is on record by then. */
  predicate At(s: Sched, before: Sched, owner: Owner, config: Config, os: seq<Outcome>, k: nat)
    requires k < 5 && |os| == 5 && os[0].url.Some?
  {
    var url := os[0].url.value;
    && s.tasks == ListOf(owner, config, k, url) && !s.running && s.enabled && NextIndex(s) == k
    && s.lastPollMs == (if k < 4 then before.lastPollMs else Millis(os[3].uptime))
    && s.trace == before.trace + [Generated(owner, url), UploadedTo(owner, url), Polled(os[3].uptime)][..if k < 2 then k else if k < 4 then 2 else 3]
  }

  lemma GenerateVisit(s: Sched, before: Sched, owner: Owner, config: Config, os: seq<Outcome>)
    requires GoesWell(before, os) && At(s, before, owner, config, os, 0)
    ensures At(Visit(s, os[0]), before, owner, config, os, 1)
  {
    var r := Visit(s, os[0]);
    assert r.tasks == ListOf(owner, config, 1, os[0].url.value);
    assert !r.tasks[1].done;
    var url := os[0].url.value;
    assert [Generated(owner, url), UploadedTo(owner, url), Polled(os[3].uptime)][..1] == [Generated(owner, url)];
  }

  lemma UploadVisit(s: Sched, before: Sched, owner: Owner, config: Config, os: seq<Outcome>)
    requires GoesWell(before, os) && At(s, before, owner, config, os, 1) && Archive(config)
    ensures At(Visit(s, os[1]), before, owner, config, os, 2)
  {
    var r := Visit(s, os[1]);
    assert r.tasks == ListOf(owner, config, 2, os[0].url.value);
    assert !r.tasks[2].done;
  }

  lemma DeployVisit(s: Sched, before: Sched, owner: Owner, config: Config, os: seq<Outcome>)
    requires GoesWell(before, os) && At(s, before, owner, config, os, 2)
    ensures At(Visit(s, os[2]), before, owner, config, os, 3)
  {
    var r := Visit(s, os[2]);
    assert r.tasks == ListOf(owner, config, 3, os[0].url.value);
    assert !r.tasks[3].done;
  }

  predicate Finished(s: Sched, before: Sched, owner: Owner, os: seq<Outcome>)
    requires |os| == 5 && os[0].url.Some?
  {
    var url := os[0].url.value;
    s.tasks == [] && s.trace == before.trace + [Generated(owner, url), UploadedTo(owner, url), Polled(os[3].uptime)]
  }

  lemma PollVisit(s: Sched, before: Sched, owner: Owner, config: Config, os: seq<Outcome>)
    requires GoesWell(before, os) && At(s, before, owner, config, os, 3)
    ensures var r := Visit(s, os[3]);
            if config.hasPolicy then At(r, before, owner, config, os, 4) else Finished(r, before, owner, os)
  {
    hide PollDue, Millis;
    SameDue(before, s.(running := true, index := 3), os[3]);
    var w := AfterTask(s.(running := true, index := 3), os[3]);
    if config.hasPolicy {
      assert w.tasks == ListOf(owner, config, 4, os[0].url.value);
      assert !w.tasks[4].done;
    }
  }

  lemma PolicyVisit(s: Sched, before: Sched, owner: Owner, config: Config, os: seq<Outcome>)
    requires GoesWell(before, os) && At(s, before, owner, config, os, 4)
    ensures Finished(Visit(s, os[4]), before, owner, os)
  {
  }

  /** When everything goes well, the deployment of an archive takes one visit a step: the URL is
      generated, the archive uploaded there, the function deployed, its state polled, and the policy
      set if there is one; then nothing is listed. */
  lemma PipelineCompletes(s: Sched, owner: Owner, config: Config, os: seq<Outcome>, o: Outcome)
    requires s.tasks == [] && !s.running && GoesWell(s, os) && Archive(config)
    ensures var r := VisitAll(Create(s, true, owner, config, true, true, o), if config.hasPolicy then os else os[..4]);
            Finished(r, s, owner, os)
  {
    hide Visit, At, Finished, VisitAll;
    var s0 := Create(s, true, owner, config, true, true, o);
    PipelineBegins(s, owner, config, os, o);
    var s1 := Visit(s0, os[0]);
    var s2 := Visit(s1, os[1]);
    var s3 := Visit(s2, os[2]);
    GenerateVisit(s0, s, owner, config, os);
    UploadVisit(s1, s, owner, config, os);
    DeployVisit(s2, s, owner, config, os);
    PollVisit(s3, s, owner, config, os);
    var s4 := Visit(s3, os[3]);
    if config.hasPolicy { PolicyVisit(s4, s, owner, config, os); }
    VisitsUnfold(s0, os);
  }

  lemma PipelineBegins(s: Sched, owner: Owner, config: Config, os: seq<Outcome>, o: Outcome)
    requires s.tasks == [] && !s.running && GoesWell(s, os) && Archive(config)
    ensures At(Create(s, true, owner, config, true, true, o), s, owner, config, os, 0)
  {
    assert s.trace + [][..0] == s.trace;
  }

  lemma VisitsUnfold(s: Sched, os: seq<Outcome>)
    requires |os| == 5
    ensures var r := Visit(Visit(Visit(Visit(s, os[0]), os[1]), os[2]), os[3]);
            VisitAll(s, os[..4]) == r && VisitAll(s, os) == Visit(r, os[4])
  {
    hide Visit;
    VisitLast(s, os[..4], os[4]);
    VisitLast(s, os[..3], os[3]);
    VisitLast(s, os[..2], os[2]);
    VisitLast(s, os[..1], os[1]);
    VisitLast(s, [], os[0]);
    assert os[..4] + [os[4]] == os && os[..3] + [os[3]] == os[..4] && os[..2] + [os[2]] == os[..3];
    assert os[..1] + [os[1]] == os[..2] && [] + [os[0]] == os[..1];
  }

  lemma {:induction false} VisitLast(s: Sched, os: seq<Outcome>, o: Outcome)
    ensures VisitAll(s, os + [o]) == Visit(VisitAll(s, os), o)
    decreases |os|
  {
    hide Visit;
    if os != [] {
      assert (os + [o])[1..] == os[1..] + [o];
      VisitLast(Visit(s, os[0]), os[1..], o);
    } else {
      assert (os + [o])[1..] == [];
    }
  }
}
