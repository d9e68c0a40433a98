/** The scheduler as a state machine. One event is one step that runs without interruption: a locked section,
    one receive from the release channel, one send to it, or one state update under a task's own lock.
    Events that are not enabled leave the state alone, so any sequence of events is an interleaving. */
module SchedulerModel {
  import opened Resource
  import opened KillPlan
  import opened Sorting
  import opened Sums

  type TaskId = nat

  datatype ExecType = Run | Output | Combined | LongRunning | OtherType

  datatype TaskState = Queued | Running | Completed | Failed | Killed | Dead {
    predicate Terminal() { Completed? || Failed? || Killed? || Dead? }
  }

  /** What `cmd.Wait`, `cmd.Run` and their like report. */
  datatype ExitReport = Clean | Exited(code: int) | Signaled | NotAWaitStatus | WaitAlreadyCalled | OtherError

  function StateFromReport(report: ExitReport): (state: TaskState)
    ensures state.Terminal()
    ensures state.Completed? <==> report.Clean? || report == Exited(0)
    ensures state.Killed? <==> report.Signaled?
    ensures state.Dead? <==> report.NotAWaitStatus? || report.WaitAlreadyCalled?
    ensures report.Exited? && report.code != 0 ==> state.Failed?
  {
    match report
    case Clean => Completed
    case Exited(code) => if code != 0 then Failed else Completed
    case Signaled => Killed
    case NotAWaitStatus => Dead
    case WaitAlreadyCalled => Dead
    case OtherError => Failed
  }

  datatype TaskRequest = TaskRequest(
    execType: ExecType, resources: Resources, priority: int, retries: int,
    hasOnLaunchComplete: bool, hasOnTaskComplete: bool)

  datatype RequestError = NegativeResources | NegativePriority | NoLaunchCallback

  datatype Validation = Valid | Invalid(error: RequestError)

  /** Resources are refused only when both components are negative. */
  function ValidateTaskRequest(req: TaskRequest): Validation
  {
    if ZERO.Greater(req.resources) then Invalid(NegativeResources)
    else if req.priority < 0 then Invalid(NegativePriority)
    else if !req.hasOnLaunchComplete then Invalid(NoLaunchCallback)
    else Valid
  }

  /** A task record; the two call counters record how often each callback was fired. */
  datatype Task = Task(
    req: TaskRequest, priority: int, state: TaskState, tries: nat, launchTime: int,
    launchCalls: nat, completeCalls: nat)

  /** What the launching goroutine is doing with the task it took from the queue. */
  datatype Phase =
    | Idle
    | Planning(id: TaskId)
    | Killing(id: TaskId, victims: seq<Victim>)
    | Granted(id: TaskId)
    | Denied(id: TaskId)

  /** What the goroutine executing a task is doing. */
  datatype Exec = Starting | Up | Over(report: ExitReport)

  datatype Sched = Sched(
    free: Resources,
    release: seq<Resources>,
    taskQueue: seq<TaskId>,
    waitQueue: seq<TaskId>,
    tasks: map<TaskId, Task>,
    phase: Phase,
    exec: map<TaskId, Exec>,
    finished: set<TaskId>,
    startFailed: set<TaskId>)

  function Initial(total: Resources): Sched
  {
    Sched(total, [], [], [], map[], Idle, map[], {}, {})
  }

  datatype Event =
    | Schedule(id: TaskId, req: TaskRequest)
    | Wake(position: nat)
    | Begin
    | Drain
    | Reserve
    | Choose(order: seq<Victim>)
    | Recheck
    | Finish(now: int)
    | Start(id: TaskId, started: bool)
    | RunShort(id: TaskId, report: ExitReport)
    | Exit(id: TaskId, report: ExitReport)
    | Close(id: TaskId)

  /** Long-running tasks of lower priority whose record says running, as `plan` sees them. */
  ghost function Candidates(s: Sched, need: Task): set<Victim>
  {
    set id | id in s.tasks && IsCandidate(s.tasks[id], need) :: VictimOf(id, s.tasks[id])
  }

  predicate IsCandidate(t: Task, need: Task)
  {
    t.priority < need.priority && t.req.execType == LongRunning && t.state == Running
  }

  function VictimOf(id: TaskId, t: Task): Victim { Victim(id, t.priority, t.launchTime, t.req.resources) }

  ghost predicate Enabled(s: Sched, e: Event)
  {
    match e
    case Schedule(id, req) => id !in s.tasks && ValidateTaskRequest(req).Valid?
    case Wake(position) => position < |s.waitQueue|
    case Begin => s.phase == Idle && s.taskQueue != []
    case Drain => s.phase != Idle && s.release != []
    case Reserve => s.phase.Planning? && s.phase.id in s.tasks && s.free.Greater(Need(s).req.resources)
    case Choose(order) =>
      && s.phase.Planning? && s.phase.id in s.tasks && !s.free.Greater(Need(s).req.resources)
      && Lists(order, Candidates(s, Need(s))) && InDyingOrder(order)
    case Recheck => s.phase.Killing? && s.phase.id in s.tasks
    case Finish(_) => (s.phase.Granted? || s.phase.Denied?) && s.phase.id in s.tasks
    case Start(id, _) => id in s.exec && s.exec[id] == Starting && id in s.tasks && s.tasks[id].req.execType == LongRunning
    case RunShort(id, report) =>
      && id in s.exec && s.exec[id] == Starting && id in s.tasks && s.tasks[id].req.execType != LongRunning
      && (s.tasks[id].req.execType == OtherType ==> report == OtherError)
    case Exit(id, _) => id in s.exec && s.exec[id] == Up && id in s.tasks
    case Close(id) => id in s.exec && s.exec[id].Over? && id in s.tasks
  }

  /** The task being planned for. */
  function Need(s: Sched): Task
    requires s.phase != Idle && s.phase.id in s.tasks
  {
    s.tasks[s.phase.id]
  }

  ghost function Step(s: Sched, e: Event): Sched
  {
    if !Enabled(s, e) then s else
      match e
      case Schedule(id, req) =>
        s.(tasks := s.tasks[id := Task(req, req.priority, Queued, 0, 0, 0, 0)], taskQueue := s.taskQueue + [id])
      case Wake(p) =>
        s.(waitQueue := s.waitQueue[..p] + s.waitQueue[p + 1..], taskQueue := s.taskQueue + [s.waitQueue[p]])
      case Begin => BeginLaunch(s)
      case Drain => s.(free := s.free.Plus(s.release[0]), release := s.release[1..])
      case Reserve => s.(free := s.free.Minus(Need(s).req.resources), phase := Granted(s.phase.id))
      case Choose(order) =>
        var victims := ChosenVictims(s.free, Need(s).req.resources, order);
        s.(phase := if victims == [] then Denied(s.phase.id) else Killing(s.phase.id, victims))
      case Recheck =>
        if s.free.Greater(Need(s).req.resources)
        then s.(free := s.free.Minus(Need(s).req.resources), phase := Granted(s.phase.id))
        else s.(phase := Denied(s.phase.id))
      case Finish(now) => FinishLaunch(s, now)
      case Start(id, started) => StartLongRunning(s, id, started)
      case RunShort(id, report) =>
        s.(release := s.release + [s.tasks[id].req.resources], exec := s.exec[id := Over(report)])
      case Exit(id, report) =>
        s.(release := s.release + [s.tasks[id].req.resources], exec := s.exec[id := Over(report)])
      case Close(id) => CloseTask(s, id)
  }

  /** Take the next id off the queue; an id without a record is dropped. */
  function BeginLaunch(s: Sched): Sched
    requires s.taskQueue != []
  {
    var id := s.taskQueue[0];
    if id !in s.tasks then s.(taskQueue := s.taskQueue[1..])
    else s.(taskQueue := s.taskQueue[1..], phase := Planning(id),
            tasks := s.tasks[id := s.tasks[id].(tries := s.tasks[id].tries + 1)])
  }

  /** The rest of `launchTask` once `plan` has answered. */
  function FinishLaunch(s: Sched, now: int): Sched
    requires s.phase != Idle && s.phase.id in s.tasks
  {
    var id := s.phase.id;
    var t := s.tasks[id];
    if s.phase.Granted? then
      s.(phase := Idle, tasks := s.tasks[id := t.(launchTime := now)], exec := s.exec[id := Starting])
    else if t.tries >= t.req.retries then
      s.(phase := Idle, finished := s.finished + {id},
         tasks := s.tasks[id := t.(state := Failed, launchCalls := t.launchCalls + 1)])
    else
      s.(phase := Idle, waitQueue := s.waitQueue + [id], tasks := s.tasks[id := t.(priority := t.priority + 10)])
  }

  /** `executeLongRunningTask`: a failed start reports, and returns nothing to the channel. */
  function StartLongRunning(s: Sched, id: TaskId, started: bool): Sched
    requires id in s.tasks && id in s.exec
  {
    var t := s.tasks[id];
    if started then
      s.(tasks := s.tasks[id := t.(state := Running, launchCalls := t.launchCalls + 1)], exec := s.exec[id := Up])
    else
      s.(tasks := s.tasks[id := t.(launchCalls := t.launchCalls + 1)], exec := s.exec - {id},
         finished := s.finished + {id}, startFailed := s.startFailed + {id})
  }

  /** The state update and the callback that follow the release. */
  function CloseTask(s: Sched, id: TaskId): Sched
    requires id in s.tasks && id in s.exec && s.exec[id].Over?
  {
    var t := s.tasks[id].(state := StateFromReport(s.exec[id].report));
    var closed :=
      if t.req.execType != LongRunning then t.(launchCalls := t.launchCalls + 1)
      else if t.req.hasOnTaskComplete then t.(completeCalls := t.completeCalls + 1)
      else t;
    s.(tasks := s.tasks[id := closed], exec := s.exec - {id}, finished := s.finished + {id})
  }

  ghost function Execute(s: Sched, events: seq<Event>): Sched
    decreases |events|
  {
    if events == [] then s else Execute(Step(s, events[0]), events[1..])
  }

  lemma {:induction false} ExecuteAppend(s: Sched, a: seq<Event>, b: seq<Event>)
    ensures Execute(s, a + b) == Execute(Execute(s, a), b)
    decreases |a|
  {
    if a == [] {
      assert a + b == b;
    } else {
      assert (a + b)[1..] == a[1..] + b;
      ExecuteAppend(Step(s, a[0]), a[1..], b);
    }
  }
}
