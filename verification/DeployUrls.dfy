/** Any number of pipelines at once: which runs of the scheduler use every generated upload URL for
    exactly one upload of its own object. */
module DeployUrls {
  import opened Wrappers
  import opened Deploy
  import opened DeployProofs

  datatype Route = Route(owner: Owner, url: string)

  function One(b: bool): (n: nat) { if b then 1 else 0 }

  /** The task is an upload that is still to come, by this route. */
  predicate Holds(t: Task, r: Route) { !t.done && t.step == UploadZip && r == Route(t.owner, t.uploadUrl) }

  function Waiting(tasks: seq<Task>, r: Route): (n: nat) {
    if tasks == [] then 0 else Waiting(tasks[..|tasks| - 1], r) + One(Holds(tasks[|tasks| - 1], r))
  }

  function TimesIn(trace: seq<Action>, a: Action): (n: nat) {
    if trace == [] then 0 else TimesIn(trace[..|trace| - 1], a) + One(trace[|trace| - 1] == a)
  }

  predicate BalancedAt(s: Sched, r: Route) {
    TimesIn(s.trace, Generated(r.owner, r.url)) == TimesIn(s.trace, UploadedTo(r.owner, r.url)) + Waiting(s.tasks, r)
  }

  /** Every generated URL has been used for one upload of its object, or is held by one to come;
      and there are no other uploads. */
  ghost predicate Balanced(s: Sched) { forall r: Route :: BalancedAt(s, r) }

  /** Only archives go through the steps with a URL, and no URL is empty. */
  ghost predicate Plain(s: Sched) {
    && (forall i | 0 <= i < |s.tasks| :: WellFormed(s.tasks[i]))
    && Archived(s) && Named(s.trace)
  }

  predicate Archived(s: Sched) { forall i | 0 <= i < |s.tasks| :: HasArchive(s.tasks[i]) }

  ghost predicate Named(trace: seq<Action>) { forall owner: Owner :: TimesIn(trace, Generated(owner, "")) == 0 }

  predicate HasArchive(t: Task) {
    t.step == GenUploadUrl || t.step == UploadZip ==> t.config.source == LocalArchive || t.config.source == FlashData
  }

  predicate NamesUrl(o: Outcome) { o.url.Some? ==> o.url.value != "" }

  /** A visit that gets a URL for a task that is not the last. */
  predicate Misplaces(s: Sched, o: Outcome) {
    !s.running && s.enabled && s.tasks != [] &&
    var t := s.tasks[NextIndex(s)];
    !t.done && t.step == GenUploadUrl && o.ok && o.url.Some? && NextIndex(s) != |s.tasks| - 1
  }

  predicate EventMisplaces(s: Sched, e: Event) {
    match e
    case Created(_, _, _, _, _) => false
    case Visited(o) => Misplaces(s, o)
    case Manual(loopTask, o) => !loopTask && Misplaces(s, o)
  }

  // --------------------------------------------------------------- bookkeeping

  lemma WaitingSnoc(tasks: seq<Task>, t: Task, r: Route)
    ensures Waiting(tasks + [t], r) == Waiting(tasks, r) + One(Holds(t, r))
  {
    assert (tasks + [t])[..|tasks|] == tasks;
  }

  lemma {:induction false} WaitingUpdate(tasks: seq<Task>, i: nat, t: Task, r: Route)
    requires i < |tasks|
    ensures Waiting(tasks[i := t], r) + One(Holds(tasks[i], r)) == Waiting(tasks, r) + One(Holds(t, r))
  {
    hide Holds;
    var n := |tasks| - 1;
    if i < n {
      assert tasks[i := t][..n] == tasks[..n][i := t];
      WaitingUpdate(tasks[..n], i, t, r);
    } else {
      assert tasks[i := t][..n] == tasks[..n];
    }
  }

  lemma {:induction false} WaitingHas(tasks: seq<Task>, i: nat, r: Route)
    requires i < |tasks| && Holds(tasks[i], r)
    ensures Waiting(tasks, r) > 0
  {
    if i < |tasks| - 1 { WaitingHas(tasks[..|tasks| - 1], i, r); }
  }

  lemma {:induction false} NothingWaits(tasks: seq<Task>, r: Route)
    requires AllDone(tasks)
    ensures Waiting(tasks, r) == 0
  {
    if tasks != [] { NothingWaits(tasks[..|tasks| - 1], r); }
  }

  lemma TraceSnoc(trace: seq<Action>, a: Action, b: Action)
    ensures TimesIn(trace + [a], b) == TimesIn(trace, b) + One(a == b)
  {
    assert (trace + [a])[..|trace|] == trace;
  }

  // ----------------------------------------------------------------- one visit

  /** What a visit that generates a URL does to one route. */
  lemma GenAt(s: Sched, o: Outcome, r: Route)
    requires s.index < |s.tasks| && WellFormed(s.tasks[s.index])
    requires var t := s.tasks[s.index]; !t.done && t.step == GenUploadUrl && o.ok && o.url.Some?
    ensures var t, w, url := s.tasks[s.index], AfterTask(s, o), o.url.value; var last := s.index == |s.tasks| - 1;
            && TimesIn(w.trace, Generated(r.owner, r.url)) == TimesIn(s.trace, Generated(r.owner, r.url)) + One(r == Route(t.owner, url))
            && TimesIn(w.trace, UploadedTo(r.owner, r.url)) == TimesIn(s.trace, UploadedTo(r.owner, r.url))
            && (last ==> Waiting(w.tasks, r) == Waiting(s.tasks, r) + One(r == Route(t.owner, url)))
            && (!last ==> var other := s.tasks[s.index + 1];
                          Waiting(w.tasks, r) + One(Holds(other, r)) ==
                          Waiting(s.tasks, r) + One(r == Route(t.owner, "")) + One(Holds(other.(uploadUrl := url), r)))
  {
    hide Waiting, TimesIn;
    var i := s.index;
    var t, url := s.tasks[i], o.url.value;
    var added := NewTask(t.owner, t.config, UploadZip, DeployStep);
    var marked := s.tasks[i := t.(done := true)];
    var all := marked + [added];
    TraceSnoc(s.trace, Generated(t.owner, url), Generated(r.owner, r.url));
    TraceSnoc(s.trace, Generated(t.owner, url), UploadedTo(r.owner, r.url));
    WaitingUpdate(s.tasks, i, t.(done := true), r);
    WaitingSnoc(marked, added, r);
    WaitingUpdate(all, i + 1, all[i + 1].(uploadUrl := url), r);
    assert AfterTask(s, o).tasks == all[i + 1 := all[i + 1].(uploadUrl := url)];
    assert AfterTask(s, o).trace == s.trace + [Generated(t.owner, url)];
  }

  /** A task gets its URL in its place exactly if the visited one is the last. */
  lemma GenBalancedIff(s: Sched, o: Outcome)
    requires s.index < |s.tasks| && Plain(s) && Balanced(s) && NamesUrl(o)
    requires var t := s.tasks[s.index]; !t.done && t.step == GenUploadUrl && o.ok && o.url.Some?
    ensures Balanced(AfterTask(s, o)) <==> s.index == |s.tasks| - 1
  {
    hide AfterTask, Waiting, TimesIn, WellFormed;
    var t := s.tasks[s.index];
    if s.index == |s.tasks| - 1 {
      forall r: Route
        ensures BalancedAt(AfterTask(s, o), r)
      {
        assert BalancedAt(s, r);
        GenAt(s, o, r);
      }
    } else {
      var none := Route(t.owner, "");
      assert BalancedAt(s, none);
      assert TimesIn(s.trace, Generated(t.owner, "")) == 0;
      if Holds(s.tasks[s.index + 1], none) { WaitingHas(s.tasks, s.index + 1, none); }
      GenAt(s, o, none);
      assert !BalancedAt(AfterTask(s, o), none);
    }
  }

  /** What any other visit does: the visited task keeps its step, and what follows needs no URL. */
  ghost predicate Moves(s: Sched, w: Sched, u: Task, more: seq<Task>)
    requires s.index < |s.tasks|
  {
    && w.tasks == s.tasks[s.index := u] + more
    && u.step == s.tasks[s.index].step && u.config == s.tasks[s.index].config
    && |more| <= 1 && forall i | 0 <= i < |more| :: more[i].step != UploadZip && more[i].step != GenUploadUrl
  }

  lemma {:induction false} MovesOn(s: Sched, w: Sched, u: Task, more: seq<Task>, r: Route)
    requires s.index < |s.tasks| && Moves(s, w, u, more)
    ensures Waiting(w.tasks, r) + One(Holds(s.tasks[s.index], r)) == Waiting(s.tasks, r) + One(Holds(u, r))
  {
    hide Waiting;
    WaitingUpdate(s.tasks, s.index, u, r);
    if more == [] {
      assert w.tasks == s.tasks[s.index := u];
    } else {
      assert more == [more[0]];
      WaitingSnoc(s.tasks[s.index := u], more[0], r);
    }
  }

  /** At most a poll was added. */
  ghost predicate NoUrl(trace: seq<Action>, more: seq<Action>) {
    more == trace || exists uptime :: more == trace + [Polled(uptime)]
  }

  lemma NoUrlCounts(trace: seq<Action>, more: seq<Action>, owner: Owner, url: string)
    requires NoUrl(trace, more)
    ensures TimesIn(more, Generated(owner, url)) == TimesIn(trace, Generated(owner, url))
    ensures TimesIn(more, UploadedTo(owner, url)) == TimesIn(trace, UploadedTo(owner, url))
  {
    if more != trace {
      var uptime :| more == trace + [Polled(uptime)];
      TraceSnoc(trace, Polled(uptime), Generated(owner, url));
      TraceSnoc(trace, Polled(uptime), UploadedTo(owner, url));
    }
  }

  lemma PollMoves(s: Sched, o: Outcome) returns (u: Task, more: seq<Task>)
    requires s.index < |s.tasks| && WellFormed(s.tasks[s.index]) && s.tasks[s.index].step == Polling
    ensures Moves(s, AfterPoll(s, o), u, more) && NoUrl(s.trace, AfterPoll(s, o).trace)
  {
    hide PollDue;
    var w, n := AfterPoll(s, o), |s.tasks|;
    u, more := w.tasks[s.index], w.tasks[n..];
    assert w.tasks[..n] == s.tasks[s.index := u];
  }

  lemma OtherMoves(s: Sched, o: Outcome) returns (u: Task, more: seq<Task>)
    requires s.index < |s.tasks| && WellFormed(s.tasks[s.index])
    requires var t := s.tasks[s.index]; t.step != UploadZip && !(!t.done && t.step == GenUploadUrl && o.ok && o.url.Some?)
    ensures Moves(s, AfterTask(s, o), u, more) && NoUrl(s.trace, AfterTask(s, o).trace)
  {
    hide AfterPoll;
    var w, n := AfterTask(s, o), |s.tasks|;
    if !s.tasks[s.index].done && s.tasks[s.index].step == Polling {
      u, more := PollMoves(s, o);
    } else {
      u, more := w.tasks[s.index], w.tasks[n..];
      assert w.tasks[..n] == s.tasks[s.index := u];
    }
  }

  lemma ZipMoves(s: Sched, o: Outcome) returns (u: Task, more: seq<Task>)
    requires s.index < |s.tasks| && WellFormed(s.tasks[s.index]) && HasArchive(s.tasks[s.index])
    requires s.tasks[s.index].step == UploadZip && !s.tasks[s.index].done
    ensures Moves(s, AfterTask(s, o), u, more) && u.done
    ensures var t := s.tasks[s.index]; AfterTask(s, o).trace == s.trace + [UploadedTo(t.owner, t.uploadUrl)]
  {
    var w, n := AfterTask(s, o), |s.tasks|;
    u, more := w.tasks[s.index], w.tasks[n..];
    assert w.tasks[..n] == s.tasks[s.index := u];
  }

  /** Any other visit keeps the balance. */
  lemma OtherKeepsBalance(s: Sched, o: Outcome)
    requires s.index < |s.tasks| && Plain(s) && Balanced(s)
    requires var t := s.tasks[s.index]; !(!t.done && t.step == GenUploadUrl && o.ok && o.url.Some?)
    ensures Balanced(AfterTask(s, o))
  {
    hide AfterTask, Waiting, TimesIn, Moves, WellFormed;
    var t, w := s.tasks[s.index], AfterTask(s, o);
    if t.step == UploadZip {
      ZipKeepsBalance(s, o);
    } else {
      var u, more := OtherMoves(s, o);
      SameStep(s, w, u, more);
      forall r: Route
        ensures BalancedAt(w, r)
      {
        assert BalancedAt(s, r);
        MovesOn(s, w, u, more, r);
        NoUrlCounts(s.trace, w.trace, r.owner, r.url);
      }
    }
  }

  lemma SameStep(s: Sched, w: Sched, u: Task, more: seq<Task>)
    requires s.index < |s.tasks| && Moves(s, w, u, more)
    ensures u.step == s.tasks[s.index].step
  {
  }

  lemma ZipKeepsBalance(s: Sched, o: Outcome)
    requires s.index < |s.tasks| && Plain(s) && Balanced(s) && s.tasks[s.index].step == UploadZip
    ensures Balanced(AfterTask(s, o))
  {
    hide AfterTask, Waiting, TimesIn, Moves, WellFormed;
    var t, w := s.tasks[s.index], AfterTask(s, o);
    if t.done {
      DoneStays(s, o);
    } else {
      var u, more := ZipMoves(s, o);
      var a := UploadedTo(t.owner, t.uploadUrl);
      forall r: Route
        ensures BalancedAt(w, r)
      {
        assert BalancedAt(s, r);
        MovesOn(s, w, u, more, r);
        TraceSnoc(s.trace, a, Generated(r.owner, r.url));
        TraceSnoc(s.trace, a, UploadedTo(r.owner, r.url));
      }
    }
  }

  lemma DoneStays(s: Sched, o: Outcome)
    requires s.index < |s.tasks| && s.tasks[s.index].done
    ensures AfterTask(s, o) == s
  {
  }

  lemma ClearedKeepsBalance(s: Sched)
    ensures Balanced(Cleared(s)) <==> Balanced(s)
  {
    hide TimesIn;
    forall r: Route
      ensures BalancedAt(Cleared(s), r) <==> BalancedAt(s, r)
    {
      if AllDone(s.tasks) {
        NothingWaits(s.tasks, r);
        assert AllDone([]);
        NothingWaits([], r);
      }
    }
    if Balanced(s) { forall r: Route ensures BalancedAt(Cleared(s), r) { assert BalancedAt(s, r); } }
    if Balanced(Cleared(s)) { forall r: Route ensures BalancedAt(s, r) { assert BalancedAt(Cleared(s), r); } }
  }

  /** Flags and counts have no part in it. */
  lemma SameBalance(s: Sched, w: Sched)
    requires w.tasks == s.tasks && w.trace == s.trace
    ensures Balanced(w) <==> Balanced(s)
    ensures Plain(w) <==> Plain(s)
  {
    hide Waiting, TimesIn, WellFormed;
    if Balanced(s) { forall r: Route ensures BalancedAt(w, r) { assert BalancedAt(s, r); } }
    if Balanced(w) { forall r: Route ensures BalancedAt(s, r) { assert BalancedAt(w, r); } }
  }

  /** One visit keeps the balance exactly unless it gets a URL for a task that is not the last. */
  lemma VisitBalancedIff(s: Sched, o: Outcome)
    requires Plain(s) && Balanced(s) && NamesUrl(o)
    ensures Balanced(Visit(s, o)) <==> !Misplaces(s, o)
  {
    hide AfterTask, Balanced, Plain, Cleared;
    if !s.running && s.enabled && s.tasks != [] {
      var v := s.(running := true, index := NextIndex(s));
      SameBalance(s, v);
      var w := AfterTask(v, o);
      var t := v.tasks[v.index];
      if !t.done && t.step == GenUploadUrl && o.ok && o.url.Some? {
        GenBalancedIff(v, o);
      } else {
        OtherKeepsBalance(v, o);
      }
      ClearedKeepsBalance(w);
      SameBalance(Cleared(w), Cleared(w).(running := false));
    }
  }

  // ------------------------------------------------------------------ any event

  lemma WorkKeepsArchived(s: Sched, o: Outcome)
    requires s.index < |s.tasks| && WellFormed(s.tasks[s.index]) && Archived(s)
    ensures Archived(AfterTask(s, o))
  {
    hide AfterTask, PollDue;
    var e := EffectOf(s.tasks[s.index], PollDue(s, o), o);
    WorkShape(s, o);
    SuccessorHasArchive(s.tasks[s.index], PollDue(s, o), o);
    var w := AfterTask(s, o);
    forall k | 0 <= k < |w.tasks|
      ensures HasArchive(w.tasks[k])
    {
      assert k < |s.tasks| ==> HasArchive(s.tasks[k]);
      assert k < |s.tasks| && k != s.index ==> Alike(s.tasks[k], w.tasks[k]);
    }
  }

  lemma SuccessorHasArchive(t: Task, due: bool, o: Outcome)
    requires WellFormed(t) && HasArchive(t)
    ensures var e := EffectOf(t, due, o);
            e.successor.Some? ==> HasArchive(NewTask(t.owner, t.config, e.successor.value.step, e.successor.value.next))
  {
  }

  lemma WorkKeepsNamed(s: Sched, o: Outcome)
    requires s.index < |s.tasks| && Named(s.trace) && NamesUrl(o)
    ensures Named(AfterTask(s, o).trace)
  {
    hide AfterPoll;
    var t, w := s.tasks[s.index], AfterTask(s, o);
    forall owner: Owner
      ensures TimesIn(w.trace, Generated(owner, "")) == 0
    {
      if t.done {
      } else if t.step == GenUploadUrl {
        if o.ok && o.url.Some? { TraceSnoc(s.trace, Generated(t.owner, o.url.value), Generated(owner, "")); }
      } else if t.step == UploadZip {
        TraceSnoc(s.trace, UploadedTo(t.owner, t.uploadUrl), Generated(owner, ""));
        assert s.trace + [] == s.trace;
      } else if t.step == Polling {
        PollNamesNothing(s, o);
        NoUrlCounts(s.trace, w.trace, owner, "");
      }
    }
  }

  lemma PollNamesNothing(s: Sched, o: Outcome)
    requires s.index < |s.tasks|
    ensures NoUrl(s.trace, AfterPoll(s, o).trace)
  {
    hide PollDue;
  }

  lemma VisitKeepsUrls(s: Sched, o: Outcome)
    requires Plain(s) && NamesUrl(o)
    ensures Archived(Visit(s, o)) && Named(Visit(s, o).trace)
  {
    hide AfterTask, WellFormed, HasArchive, Named;
    if !s.running && s.enabled && s.tasks != [] {
      var v := s.(running := true, index := NextIndex(s));
      WorkKeepsArchived(v, o);
      WorkKeepsNamed(v, o);
    }
  }

  lemma AddKeepsUrls(s: Sched, owner: Owner, config: Config, step: Step, next: Step)
    requires step != UploadZip && WellFormed(NewTask(owner, config, step, next)) && HasArchive(NewTask(owner, config, step, next))
    requires Plain(s) && Balanced(s)
    ensures Plain(AddTask(s, owner, config, step, next)) && Balanced(AddTask(s, owner, config, step, next))
  {
    hide Waiting, TimesIn, WellFormed, HasArchive;
    var w := AddTask(s, owner, config, step, next);
    forall r: Route
      ensures BalancedAt(w, r)
    {
      assert BalancedAt(s, r);
      WaitingSnoc(s.tasks, NewTask(owner, config, step, next), r);
    }
  }

  lemma AddThenRunKeepsUrls(s: Sched, esp32: bool, owner: Owner, config: Config, step: Step, next: Step, o: Outcome)
    requires step != UploadZip && WellFormed(NewTask(owner, config, step, next)) && HasArchive(NewTask(owner, config, step, next))
    requires Plain(s) && Balanced(s) && s.loopEnabled && NamesUrl(o)
    ensures var w := AddThenRun(s, esp32, owner, config, step, next, o); Archived(w) && Named(w.trace) && Balanced(w)
  {
    hide Visit, Balanced, WellFormed, HasArchive, Named;
    AddKeepsUrls(s, owner, config, step, next);
    var v := AddTask(s, owner, config, step, next);
    VisitKeepsUrls(v, o);
    if |v.tasks| == 1 { VisitBalancedIff(v, o); }
  }

  lemma EventBalancedIff(s: Sched, esp32: bool, e: Event)
    requires Plain(s) && Balanced(s) && NamesUrl(e.o)
    ensures Archived(Next(s, esp32, e)) && Named(Next(s, esp32, e).trace)
    ensures Balanced(Next(s, esp32, e)) <==> !EventMisplaces(s, e)
  {
    hide Visit, AddThenRun, Balanced, Plain, Archived, Named;
    match e
    case Created(owner, config, fileOk, deployOk, o) =>
      var s1 := s.(loopEnabled := true);
      SameBalance(s, s1);
      PlainHas(s1);
      match config.source {
        case LocalArchive => AddThenRunKeepsUrls(s1, esp32, owner, config, GenUploadUrl, UploadZip, o);
        case FlashData => AddThenRunKeepsUrls(s1, esp32, owner, config, GenUploadUrl, UploadZip, o);
        case Bucket => AddThenRunKeepsUrls(s1, esp32, owner, config, UploadSources, DeployStep, o);
        case Other =>
          AddThenRunKeepsUrls(s1, esp32, owner, config, Polling, if config.hasPolicy then SetIamPolicy else Idle, o);
      }
    case Visited(o) =>
      VisitKeepsUrls(s, o);
      VisitBalancedIff(s, o);
    case Manual(loopTask, o) =>
      var s1 := s.(loopEnabled := false);
      SameBalance(s, s1);
      PlainHas(s1);
      VisitKeepsUrls(s1, o);
      VisitBalancedIff(s1, o);
  }

  lemma PlainHas(s: Sched)
    requires Plain(s)
    ensures Archived(s) && Named(s.trace)
  {
  }

  // ------------------------------------------------------------------ every run

  /** No visit of the run gets a URL for a task that is not the last. */
  predicate NeverMisplaces(s: Sched, esp32: bool, events: seq<Event>)
    decreases |events|
  {
    events == [] || (!EventMisplaces(s, events[0]) && NeverMisplaces(Next(s, esp32, events[0]), esp32, events[1..]))
  }

  ghost predicate AlwaysBalanced(s: Sched, esp32: bool, events: seq<Event>)
    decreases |events|
  {
    Balanced(s) && (events == [] || AlwaysBalanced(Next(s, esp32, events[0]), esp32, events[1..]))
  }

  lemma InvIsPlain(s: Sched, base: Owner -> int)
    requires Inv(s, base) && Archived(s) && Named(s.trace)
    ensures Plain(s)
  {
    hide Counted, WellFormed, HasArchive, Named;
  }

  /** However many pipelines run, and whatever they answer: at every moment of the run each
      generated URL has gone to exactly one upload of its object, or is held by one to come,
      exactly if no visit gets a URL for a task that is not the last. */
  lemma {:induction false} EveryUrlIsUsedOnceIff(s: Sched, esp32: bool, events: seq<Event>, base: Owner -> int)
    requires Inv(s, base) && Archived(s) && Named(s.trace) && Balanced(s)
    requires forall i | 0 <= i < |events| :: NamesUrl(events[i].o)
    ensures AlwaysBalanced(s, esp32, events) <==> NeverMisplaces(s, esp32, events)
    decreases |events|
  {
    hide Inv, Next, Balanced, Archived, Named, EventMisplaces;
    if events != [] {
      var e := events[0];
      InvIsPlain(s, base);
      EventBalancedIff(s, esp32, e);
      if !EventMisplaces(s, e) {
        NextKeepsInv(s, esp32, e, base);
        EveryUrlIsUsedOnceIff(Next(s, esp32, e), esp32, events[1..], base);
      } else {
        assert !AlwaysBalanced(Next(s, esp32, e), esp32, events[1..]);
      }
    }
  }

  lemma {:induction false} BalancedAtEnd(s: Sched, esp32: bool, events: seq<Event>)
    requires AlwaysBalanced(s, esp32, events)
    ensures Balanced(RunAll(s, esp32, events))
    decreases |events|
  {
    hide Next, Balanced;
    if events != [] {
      BalancedAtEnd(Next(s, esp32, events[0]), esp32, events[1..]);
    }
  }

  /** So when everything has been cleared, the uploads are the generated URLs, each used once and
      for its own object. */
  lemma UploadsAreGenerated(esp32: bool, events: seq<Event>, owner: Owner, url: string)
    requires forall i | 0 <= i < |events| :: NamesUrl(events[i].o)
    requires NeverMisplaces(Initial(), esp32, events) && RunAll(Initial(), esp32, events).tasks == []
    ensures var trace := RunAll(Initial(), esp32, events).trace;
            TimesIn(trace, UploadedTo(owner, url)) == TimesIn(trace, Generated(owner, url))
  {
    hide Next, RunAll;
    InitialInv();
    EveryUrlIsUsedOnceIff(Initial(), esp32, events, _ => 0);
    BalancedAtEnd(Initial(), esp32, events);
    assert BalancedAt(RunAll(Initial(), esp32, events), Route(owner, url));
  }
}
