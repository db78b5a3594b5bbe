/** The scheduler of Cloud Functions deployments: a list of tasks visited in turn, each of
    which appends its successor, and a per-object count of long-running work. */
module Deploy {
  import opened Wrappers

  datatype Step = Idle | GenUploadUrl | UploadZip | UploadSources | DeployStep | Polling | SetIamPolicy | Delete

  datatype Source = LocalArchive | FlashData | Bucket | Other

  datatype Config = Config(source: Source, hasPolicy: bool)

  datatype FunctionStatus = Unspecified | Active | Offline | DeployInProgress | DeleteInProgress | Unknown

  /** Identity of the object a task works for. */
  type Owner = nat

  datatype Task = Task(
    owner: Owner, config: Config, step: Step, next: Step, setPolicy: bool,
    done: bool, toDelete: bool, active: bool, uploadUrl: string)

  /** What the network answers during one visit, and the time of it: whether the
      request succeeded, the upload URL in its payload, the status it reports, and the time since
      power-up in milliseconds. */
  datatype Outcome = Outcome(ok: bool, url: Option<string>, status: FunctionStatus, uptime: nat)

  datatype Action = Generated(owner: Owner, url: string) | UploadedTo(owner: Owner, url: string) | Polled(uptime: nat)

  datatype Sched = Sched(
    tasks: seq<Task>, index: nat, running: bool, enabled: bool, lastPollMs: nat,
    loopEnabled: bool, longRunning: map<Owner, int>, trace: seq<Action>)

  const MILLIS_WRAP: nat := 0x1_0000_0000

  const POLL_INTERVAL: nat := 5000

  /** The counter shows the time since power-up modulo 2^32. */
  function Millis(uptime: nat): (m: nat) { uptime % MILLIS_WRAP }

  function Count(m: map<Owner, int>, o: Owner): (n: int) { if o in m then m[o] else 0 }

  // ------------------------------------------------------------- the steps

  function NewTask(owner: Owner, config: Config, step: Step, next: Step): (t: Task) {
    Task(owner, config, step, next, config.hasPolicy, false, false, false, "")
  }

  function AddTask(s: Sched, owner: Owner, config: Config, step: Step, next: Step): (r: Sched) {
    s.(tasks := s.tasks + [NewTask(owner, config, step, next)],
       longRunning := s.longRunning[owner := Count(s.longRunning, owner) + 1],
       enabled := true)
  }

  function MarkDone(s: Sched): (r: Sched)
    requires s.index < |s.tasks|
    ensures |r.tasks| == |s.tasks| && r.index == s.index
  {
    s.(tasks := s.tasks[s.index := s.tasks[s.index].(done := true)])
  }

  function SetUrl(s: Sched, i: nat, url: string): (r: Sched)
    requires i < |s.tasks|
  {
    s.(tasks := s.tasks[i := s.tasks[i].(uploadUrl := url)])
  }

  predicate PollDue(s: Sched, o: Outcome) {
    (Millis(o.uptime) - s.lastPollMs) % MILLIS_WRAP > POLL_INTERVAL || s.lastPollMs == 0
  }

  /** The status after a poll: a failed request leaves it unspecified. */
  function PolledStatus(o: Outcome): (st: FunctionStatus) { if o.ok then o.status else Unspecified }

  predicate PollEnds(o: Outcome) { !o.ok || o.status == Active || o.status == Unknown || o.status == Offline }

  function AfterPoll(s: Sched, o: Outcome): (r: Sched)
    requires s.index < |s.tasks|
  {
    var t := s.tasks[s.index];
    if !PollDue(s, o) then s
    else
      var s0 := s.(lastPollMs := Millis(o.uptime));
      if t.toDelete || t.active then s0
      else
        var s1 := s0.(trace := s.trace + [Polled(o.uptime)]);
        if !PollEnds(o) then s1
        else
          var st := PolledStatus(o);
          var s2 := s1.(tasks := s1.tasks[s.index := t.(done := true, toDelete := true, active := st == Active)]);
          if st == Active && t.setPolicy then AddTask(s2, t.owner, t.config, t.next, Idle)
          else if st == Unknown || st == Offline then AddTask(s2, t.owner, t.config, Delete, Idle)
          else s2
  }

  /** Working on the task at the index. */
  function AfterTask(s: Sched, o: Outcome): (r: Sched)
    requires s.index < |s.tasks|
  {
    var t := s.tasks[s.index];
    if t.done then s
    else match t.step
      case GenUploadUrl =>
        var s1 := MarkDone(s);
        if o.ok && o.url.Some? then
          var s2 := AddTask(s1, t.owner, t.config, t.next, DeployStep);
          SetUrl(s2, s.index + 1, o.url.value).(trace := s.trace + [Generated(t.owner, o.url.value)])
        else s1
      case UploadSources =>
        if o.ok then AddTask(MarkDone(s), t.owner, t.config, t.next, Polling) else MarkDone(s)
      case UploadZip =>
        var sends := t.config.source == LocalArchive || t.config.source == FlashData;
        var s1 := MarkDone(s).(trace := s.trace + (if sends then [UploadedTo(t.owner, t.uploadUrl)] else []));
        var s2 := if sends && o.ok then AddTask(s1, t.owner, t.config, t.next, Polling) else s1;
        SetUrl(s2, s.index, "")
      case DeployStep =>
        if o.ok then AddTask(MarkDone(s), t.owner, t.config, t.next, SetIamPolicy) else MarkDone(s)
      case SetIamPolicy => MarkDone(s)
      case Delete => MarkDone(s)
      case Polling => AfterPoll(s, o)
      case Idle => s
  }

  function Released(m: map<Owner, int>, tasks: seq<Task>): (r: map<Owner, int>) {
    if tasks == [] then m
    else
      var o := tasks[|tasks| - 1].owner;
      var rest := Released(m, tasks[..|tasks| - 1]);
      rest[o := Count(rest, o) - 1]
  }

  predicate AllDone(tasks: seq<Task>) { forall i | 0 <= i < |tasks| :: tasks[i].done }

  /** When everything is done, the whole list goes. */
  function Cleared(s: Sched): (r: Sched) {
    if AllDone(s.tasks) then s.(longRunning := Released(s.longRunning, s.tasks), tasks := [], enabled := false)
    else s
  }

  function NextIndex(s: Sched): (i: nat)
    requires s.tasks != []
    ensures i < |s.tasks|
  {
    if s.index < |s.tasks| - 1 then s.index + 1 else 0
  }

  /** One call of the scheduler. */
  function Visit(s: Sched, o: Outcome): (r: Sched) {
    if s.running then s
    else if !s.enabled || s.tasks == [] then s
    else Cleared(AfterTask(s.(running := true, index := NextIndex(s)), o)).(running := false)
  }

  /** Adding a task and what that triggers: with the loop task enabled only a first task
      starts it, and on the ESP32 that runs elsewhere; otherwise one visit at once. */
  function AddThenRun(s: Sched, esp32: bool, owner: Owner, config: Config, step: Step, next: Step, o: Outcome): (r: Sched) {
    var s1 := AddTask(s, owner, config, step, next);
    if s.loopEnabled && (|s1.tasks| != 1 || esp32) then s1 else Visit(s1, o)
  }

  /** A request to create or patch a function: `fileOk` is whether a local archive opens,
      `deployOk` whether a direct deployment is accepted. */
  function Create(s: Sched, esp32: bool, owner: Owner, config: Config, fileOk: bool, deployOk: bool, o: Outcome): (r: Sched) {
    var s1 := s.(loopEnabled := true);
    match config.source
    case LocalArchive => if fileOk then AddThenRun(s1, esp32, owner, config, GenUploadUrl, UploadZip, o) else s1
    case FlashData => AddThenRun(s1, esp32, owner, config, GenUploadUrl, UploadZip, o)
    case Bucket => AddThenRun(s1, esp32, owner, config, UploadSources, DeployStep, o)
    case Other =>
      if deployOk then AddThenRun(s1, esp32, owner, config, Polling, if config.hasPolicy then SetIamPolicy else Idle, o)
      else s1
  }

  function RunManually(s: Sched, esp32Loop: bool, o: Outcome): (r: Sched) {
    var s1 := s.(loopEnabled := false);
    if esp32Loop || s1.tasks == [] then s1 else Visit(s1, o)
  }

  /** A Firestore request on an object is refused while long-running work is counted. */
  predicate Refused(s: Sched, owner: Owner) { Count(s.longRunning, owner) > 0 }

  // -------------------------------------------------------------- the object

  class Scheduler {
    const esp32: bool
    var tasks: seq<Task>
    var index: nat
    var running: bool
    var enabled: bool
    var lastPollMs: nat
    var loopEnabled: bool
    var longRunning: map<Owner, int>
    var trace: seq<Action>

    constructor (esp32: bool)
      ensures View() == Initial() && this.esp32 == esp32
    {
      this.esp32 := esp32;
      tasks, index, running, enabled, lastPollMs := [], 0, false, false, 0;
      loopEnabled, longRunning, trace := false, map[], [];
    }

    ghost function View(): (s: Sched)
      reads this
    {
      Sched(tasks, index, running, enabled, lastPollMs, loopEnabled, longRunning, trace)
    }

    method AddCreationTask(owner: Owner, config: Config, step: Step, next: Step, o: Outcome)
      modifies this
      ensures View() == AddThenRun(old(View()), esp32, owner, config, step, next, o)
      decreases if running then 1 else 3
    {
      hide Visit;
      tasks := tasks + [NewTask(owner, config, step, next)];
      longRunning := longRunning[owner := Count(longRunning, owner) + 1];
      enabled := true;
      if loopEnabled {
        if |tasks| == 1 && !esp32 {
          MDeployTasks(o);
        }
      } else {
        MDeployTasks(o);
      }
    }

    /** While a visit is under way, adding a task does not start another. */
    method AddSuccessor(owner: Owner, config: Config, step: Step, next: Step, o: Outcome)
      requires running
      modifies this
      ensures View() == AddTask(old(View()), owner, config, step, next)
      decreases 2, 0
    {
      AddCreationTask(owner, config, step, next, o);
    }

    method MDeployTasks(o: Outcome)
      modifies this
      ensures View() == Visit(old(View()), o)
      decreases if running then 0 else 2, 4
    {
      if running {
        return;
      }
      if enabled {
        if |tasks| == 0 {
          return;
        }
        running := true;
        if index < |tasks| - 1 {
          index := index + 1;
        } else {
          index := 0;
        }
        WorkOn(o);
        ClearWhenDone();
      }
      running := false;
    }

    method WorkOn(o: Outcome)
      requires running && index < |tasks|
      modifies this
      ensures View() == AfterTask(old(View()), o)
      decreases 2, 3
    {
      var t := tasks[index];
      if t.done {
        return;
      }
      match t.step {
        case GenUploadUrl =>
          tasks := tasks[index := t.(done := true)];
          if o.ok && o.url.Some? {
            AddSuccessor(t.owner, t.config, t.next, DeployStep, o);
            tasks := tasks[index + 1 := tasks[index + 1].(uploadUrl := o.url.value)];
            trace := trace + [Generated(t.owner, o.url.value)];
          }
        case UploadSources =>
          tasks := tasks[index := t.(done := true)];
          if o.ok {
            AddSuccessor(t.owner, t.config, t.next, Polling, o);
          }
        case UploadZip =>
          tasks := tasks[index := t.(done := true)];
          var ret := false;
          if t.config.source == LocalArchive || t.config.source == FlashData {
            ret := o.ok;
            trace := trace + [UploadedTo(t.owner, t.uploadUrl)];
          } else {
            assert trace + [] == trace;
          }
          if ret {
            AddSuccessor(t.owner, t.config, t.next, Polling, o);
          }
          tasks := tasks[index := tasks[index].(uploadUrl := "")];
        case DeployStep =>
          tasks := tasks[index := t.(done := true)];
          if o.ok {
            AddSuccessor(t.owner, t.config, t.next, SetIamPolicy, o);
          }
        case SetIamPolicy =>
          tasks := tasks[index := t.(done := true)];
        case Delete =>
          tasks := tasks[index := t.(done := true)];
        case Polling =>
          Poll(t, o);
        case Idle =>
      }
    }

    method Poll(t: Task, o: Outcome)
      requires running && index < |tasks| && t == tasks[index]
      modifies this
      ensures View() == AfterPoll(old(View()), o)
      decreases 2, 2
    {
      if (Millis(o.uptime) - lastPollMs) % MILLIS_WRAP > POLL_INTERVAL || lastPollMs == 0 {
        lastPollMs := Millis(o.uptime);
        if !t.toDelete && !t.active {
          trace := trace + [Polled(o.uptime)];
          var status := if o.ok then o.status else Unspecified;
          if !o.ok || status == Active || status == Unknown || status == Offline {
            tasks := tasks[index := t.(done := true, toDelete := true, active := status == Active)];
            if status == Active && t.setPolicy {
              AddSuccessor(t.owner, t.config, t.next, Idle, o);
            }
            if status == Unknown || status == Offline {
              AddSuccessor(t.owner, t.config, Delete, Idle, o);
            }
          }
        }
      }
    }

    method ClearWhenDone()
      modifies this
      ensures View() == Cleared(old(View()))
    {
      var n := 0;
      for i := 0 to |tasks|
        invariant n <= i
        invariant n == i <==> forall j | 0 <= j < i :: tasks[j].done
      {
        if tasks[i].done {
          n := n + 1;
        }
      }
      if n == |tasks| {
        ghost var counts := longRunning;
        assert tasks[..0] == [];
        for i := 0 to n
          invariant tasks == old(tasks) && View() == old(View()).(longRunning := longRunning)
          invariant longRunning == Released(counts, tasks[..i])
        {
          assert tasks[..i + 1][..i] == tasks[..i];
          longRunning := longRunning[tasks[i].owner := Count(longRunning, tasks[i].owner) - 1];
        }
        assert tasks[..n] == tasks;
        tasks := [];
        enabled := false;
      }
    }

    method CreateFunction(owner: Owner, config: Config, fileOk: bool, deployOk: bool, o: Outcome) returns (ret: bool)
      modifies this
      ensures View() == Create(old(View()), esp32, owner, config, fileOk, deployOk, o)
      ensures ret <==> !(config.source == LocalArchive && !fileOk) && !(config.source == Other && !deployOk)
    {
      hide AddThenRun;
      loopEnabled := true;
      match config.source {
        case LocalArchive =>
          if !fileOk {
            return false;
          }
          AddCreationTask(owner, config, GenUploadUrl, UploadZip, o);
        case FlashData =>
          AddCreationTask(owner, config, GenUploadUrl, UploadZip, o);
        case Bucket =>
          AddCreationTask(owner, config, UploadSources, DeployStep, o);
        case Other =>
          if !deployOk {
            return false;
          }
          if config.hasPolicy {
            AddCreationTask(owner, config, Polling, SetIamPolicy, o);
          } else {
            AddCreationTask(owner, config, Polling, Idle, o);
          }
      }
      ret := true;
    }
  }

  function Initial(): (s: Sched) {
    Sched([], 0, false, false, 0, false, map[], [])
  }
}
