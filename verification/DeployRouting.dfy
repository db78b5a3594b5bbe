/** Where a generated upload URL goes. */
module DeployRouting {
  import opened Wrappers
  import opened Deploy
  import opened DeployProofs

  /** Every upload goes to the URL generated immediately before it, for the same object. */
  predicate Routed(trace: seq<Action>) {
    forall k | 0 <= k < |trace| :: trace[k].UploadedTo? ==> k > 0 && trace[k - 1] == Generated(trace[k].owner, trace[k].url)
  }

  /** One pipeline is listed: only its last task may be undone, and an upload that is still
      to come holds the URL generated last. The index may be anything. */
  predicate OnePipeline(s: Sched) {
    && (forall k | 0 <= k < |s.tasks| - 1 :: s.tasks[k].done)
    && Routed(s.trace)
    && (s.tasks != [] ==> UrlReady(s.tasks[|s.tasks| - 1], s.trace))
  }

  predicate UrlReady(t: Task, trace: seq<Action>) {
    !t.done && t.step == UploadZip ==> trace != [] && trace[|trace| - 1] == Generated(t.owner, t.uploadUrl)
  }

  /** Nothing is created while something is listed. */
  predicate OneAtATime(s: Sched, esp32: bool, events: seq<Event>)
    decreases |events|
  {
    events == [] ||
    ((events[0].Created? ==> s.tasks == []) && OneAtATime(Next(s, esp32, events[0]), esp32, events[1..]))
  }

  lemma TaskKeepsPipeline(s: Sched, o: Outcome)
    requires s.index < |s.tasks| && OnePipeline(s) && WellFormed(s.tasks[s.index])
    ensures OnePipeline(AfterTask(s, o))
  {
    var t := s.tasks[s.index];
    if !t.done {
      assert s.index == |s.tasks| - 1;
      match t.step
      case GenUploadUrl => GenKeeps(s, o);
      case UploadZip => ZipKeeps(s, o);
      case Polling => PollKeeps(s, o);
      case _ => PlainKeeps(s, o);
    }
  }

  lemma GenKeeps(s: Sched, o: Outcome)
    requires s.tasks != [] && s.index == |s.tasks| - 1 && OnePipeline(s) && WellFormed(s.tasks[s.index])
    requires !s.tasks[s.index].done && s.tasks[s.index].step == GenUploadUrl
    ensures OnePipeline(AfterTask(s, o))
  {
  }

  lemma ZipKeeps(s: Sched, o: Outcome)
    requires s.tasks != [] && s.index == |s.tasks| - 1 && OnePipeline(s) && WellFormed(s.tasks[s.index])
    requires !s.tasks[s.index].done && s.tasks[s.index].step == UploadZip
    ensures OnePipeline(AfterTask(s, o))
  {
  }

  lemma PollKeeps(s: Sched, o: Outcome)
    requires s.tasks != [] && s.index == |s.tasks| - 1 && OnePipeline(s) && WellFormed(s.tasks[s.index])
    requires !s.tasks[s.index].done && s.tasks[s.index].step == Polling
    ensures OnePipeline(AfterTask(s, o))
  {
    hide PollDue;
    if PollDue(s, o) {
      if PollEnds(o) {
        PollEndKeeps(s, o);
      }
    }
  }

  lemma PollEndKeeps(s: Sched, o: Outcome)
    requires s.tasks != [] && s.index == |s.tasks| - 1 && OnePipeline(s) && WellFormed(s.tasks[s.index])
    requires !s.tasks[s.index].done && s.tasks[s.index].step == Polling && PollDue(s, o) && PollEnds(o)
    ensures OnePipeline(AfterTask(s, o))
  {
    hide PollDue;
    var st := PolledStatus(o);
    if st == Active {
    } else if st == Unknown || st == Offline {
    } else {
    }
  }

  lemma PlainKeeps(s: Sched, o: Outcome)
    requires s.tasks != [] && s.index == |s.tasks| - 1 && OnePipeline(s) && WellFormed(s.tasks[s.index])
    requires !s.tasks[s.index].done
    requires var step := s.tasks[s.index].step; step != GenUploadUrl && step != UploadZip && step != Polling
    ensures OnePipeline(AfterTask(s, o))
  {
    hide AfterPoll;
    if s.tasks[s.index].step == UploadSources {
    } else if s.tasks[s.index].step == DeployStep {
    } else {
    }
  }

  lemma VisitKeepsPipeline(s: Sched, o: Outcome)
    requires OnePipeline(s) && forall k | 0 <= k < |s.tasks| :: WellFormed(s.tasks[k])
    ensures OnePipeline(Visit(s, o))
  {
    hide AfterTask;
    if !s.running && s.enabled && s.tasks != [] {
      TaskKeepsPipeline(s.(running := true, index := NextIndex(s)), o);
    }
  }

  lemma AddKeepsPipeline(s: Sched, esp32: bool, owner: Owner, config: Config, step: Step, next: Step, o: Outcome)
    requires OnePipeline(s) && s.tasks == [] && step != UploadZip && WellFormed(NewTask(owner, config, step, next))
    ensures OnePipeline(AddThenRun(s, esp32, owner, config, step, next, o))
  {
    hide Visit;
    var s1 := AddTask(s, owner, config, step, next);
    assert s1.tasks == [NewTask(owner, config, step, next)];
    VisitKeepsPipeline(s1, o);
  }

  lemma NextKeepsPipeline(s: Sched, esp32: bool, e: Event, base: Owner -> int)
    requires Inv(s, base) && OnePipeline(s) && (e.Created? ==> s.tasks == [])
    ensures OnePipeline(Next(s, esp32, e))
  {
    hide Visit, AddThenRun, Counted;
    match e
    case Created(owner, config, fileOk, deployOk, o) =>
      var s1 := s.(loopEnabled := true);
      match config.source {
        case LocalArchive => AddKeepsPipeline(s1, esp32, owner, config, GenUploadUrl, UploadZip, o);
        case FlashData => AddKeepsPipeline(s1, esp32, owner, config, GenUploadUrl, UploadZip, o);
        case Bucket => AddKeepsPipeline(s1, esp32, owner, config, UploadSources, DeployStep, o);
        case Other =>
          AddKeepsPipeline(s1, esp32, owner, config, Polling, if config.hasPolicy then SetIamPolicy else Idle, o);
      }
    case Visited(o) =>
      VisitKeepsPipeline(s, o);
    case Manual(loopTask, o) =>
      VisitKeepsPipeline(s.(loopEnabled := false), o);
  }

  /** With one pipeline at a time, every upload of every run goes to the URL generated for
      it, wherever an earlier pipeline left the index. */
  lemma {:induction false} UploadsAreRouted(s: Sched, esp32: bool, events: seq<Event>, base: Owner -> int)
    requires Inv(s, base) && OnePipeline(s) && OneAtATime(s, esp32, events)
    ensures Routed(RunAll(s, esp32, events).trace)
    decreases |events|
  {
    hide Counted;
    if events != [] {
      NextKeepsInv(s, esp32, events[0], base);
      NextKeepsPipeline(s, esp32, events[0], base);
      UploadsAreRouted(Next(s, esp32, events[0]), esp32, events[1..], base);
    }
  }

  /** In general, the appended task gets the URL exactly when the visited one is the last. */
  lemma UrlGoesToAppendedIff(s: Sched, o: Outcome)
    requires s.index < |s.tasks| && !s.tasks[s.index].done && s.tasks[s.index].step == GenUploadUrl
    requires o.ok && o.url.Some? && o.url.value != ""
    ensures |AfterTask(s, o).tasks| == |s.tasks| + 1
    ensures AfterTask(s, o).tasks[|s.tasks|].uploadUrl == o.url.value <==> s.index == |s.tasks| - 1
  {
  }

  const FLASH: Config := Config(FlashData, false)
  const ANSWER: Outcome := Outcome(true, Some("a"), Unspecified, 0)
  const FAILURE: Outcome := Outcome(false, None, Unspecified, 0)
  const FIRST: Task := NewTask(0, FLASH, GenUploadUrl, UploadZip)
  const SECOND: Task := NewTask(1, FLASH, GenUploadUrl, UploadZip)

  lemma RunUnfolds(s: Sched, esp32: bool, e: Event, rest: seq<Event>)
    ensures RunAll(s, esp32, [e] + rest) == RunAll(Next(s, esp32, e), esp32, rest)
  {
    assert ([e] + rest)[1..] == rest;
  }

  lemma TwoCreated(r: Sched)
    requires r == Next(Next(Initial(), true, Created(0, FLASH, true, true, FAILURE)), true, Created(1, FLASH, true, true, FAILURE))
    ensures r.tasks == [FIRST, SECOND] && r.index == 0 && r.enabled && !r.running && r.trace == []
  {
  }

  lemma SecondFails(s: Sched)
    requires s.tasks == [FIRST, SECOND] && s.index == 0 && s.enabled && !s.running && s.trace == []
    ensures var r := Visit(s, FAILURE);
            r.tasks == [FIRST, SECOND.(done := true)] && r.index == 1 && r.enabled && !r.running && r.trace == []
  {
    var r := AfterTask(s.(running := true, index := 1), FAILURE);
    assert r.tasks == [FIRST, SECOND.(done := true)];
    assert !r.tasks[0].done;
  }

  lemma FirstGetsUrl(s: Sched)
    requires s.tasks == [FIRST, SECOND.(done := true)] && s.index == 1 && s.enabled && !s.running && s.trace == []
    ensures var r := Visit(s, ANSWER);
            && r.tasks == [FIRST.(done := true), SECOND.(done := true, uploadUrl := "a"), NewTask(0, FLASH, UploadZip, DeployStep)]
            && r.index == 0 && r.enabled && !r.running && r.trace == [Generated(0, "a")]
  {
    var s1 := s.(running := true, index := 0);
    var r := AfterTask(s1, ANSWER);
    assert r.tasks == [FIRST.(done := true), SECOND.(done := true, uploadUrl := "a"), NewTask(0, FLASH, UploadZip, DeployStep)];
    assert !r.tasks[2].done;
  }

  lemma FirstUploads(s: Sched)
    requires s.tasks == [FIRST.(done := true), SECOND.(done := true, uploadUrl := "a"), NewTask(0, FLASH, UploadZip, DeployStep)]
    requires s.index == 0 && s.enabled && !s.running && s.trace == [Generated(0, "a")]
    ensures Visit(Visit(s, FAILURE), FAILURE).trace == [Generated(0, "a"), UploadedTo(0, "")]
  {
    assert !s.tasks[2].done;
    var s1 := Visit(s, FAILURE);
    assert s1 == s.(index := 1);
  }

  /** So two pipelines can misroute: here the archive of the first is sent to no URL at all. */
  lemma TwoPipelinesMisroute()
    ensures
      var events := [Created(0, FLASH, true, true, FAILURE)] + ([Created(1, FLASH, true, true, FAILURE)] +
                    ([Visited(FAILURE)] + ([Visited(ANSWER)] + ([Visited(FAILURE)] + ([Visited(FAILURE)] + [])))));
      !Routed(RunAll(Initial(), true, events).trace)
  {
    hide Visit, Create, RunAll;
    var c0, c1 := Created(0, FLASH, true, true, FAILURE), Created(1, FLASH, true, true, FAILURE);
    var f, a := Visited(FAILURE), Visited(ANSWER);
    var s1 := Next(Initial(), true, c0);
    var s2 := Next(s1, true, c1);
    var s3, s4 := Visit(s2, FAILURE), Visit(Visit(s2, FAILURE), ANSWER);
    var s5 := Visit(s4, FAILURE);
    var s6 := Visit(s5, FAILURE);
    TwoCreated(s2);
    SecondFails(s2);
    FirstGetsUrl(s3);
    FirstUploads(s4);
    RunUnfolds(Initial(), true, c0, [c1] + ([f] + ([a] + ([f] + ([f] + [])))));
    RunUnfolds(s1, true, c1, [f] + ([a] + ([f] + ([f] + []))));
    RunUnfolds(s2, true, f, [a] + ([f] + ([f] + [])));
    RunUnfolds(s3, true, a, [f] + ([f] + []));
    RunUnfolds(s4, true, f, [f] + []);
    RunUnfolds(s5, true, f, []);
    RunOfNothing(s6);
    assert s6.trace[1] == UploadedTo(0, "") && s6.trace[0] == Generated(0, "a");
    assert !Routed(s6.trace);
    assert Visited(FAILURE) == f;
  }

  lemma RunOfNothing(s: Sched)
    ensures RunAll(s, true, []) == s
  {
  }
}
