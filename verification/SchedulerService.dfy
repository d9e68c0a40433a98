/** The scheduler in the form the service has it: one object whose fields the methods update. Every method is tied
    to the events of `SchedulerModel`, so each of its intermediate states is a reachable state of that machine. */
module SchedulerService {
  import opened Resource
  import opened KillPlan
  import opened Sorting
  import opened SchedulerModel
  import opened SchedulerSafety
  import opened SchedulerDecisions

  /** Steps that other goroutines may take while a launch holds the scheduler's lock. */
  predicate FromOutside(e: Event) { e.Wake? || e.Start? || e.RunShort? || e.Exit? || e.Close? }

  predicate AllFromOutside(events: seq<Event>) { forall e :: e in events ==> FromOutside(e) }

  /** Everything in the release channel has been received. */
  function Drained(s: Sched): Sched
  {
    s.(free := Received(s.free, s.release), release := [])
  }

  function Received(free: Resources, release: seq<Resources>): Resources
    decreases |release|
  {
    if release == [] then free else Received(free.Plus(release[0]), release[1..])
  }

  lemma {:induction false} ReceivedIsSum(free: Resources, release: seq<Resources>)
    ensures Received(free, release).cpu == free.cpu + InChannel(release, false)
    ensures Received(free, release).memory == free.memory + InChannel(release, true)
    decreases |release|
  {
    if release != [] {
      ReceivedIsSum(free.Plus(release[0]), release[1..]);
    }
  }

  function Drains(n: nat): seq<Event> { seq(n, _ => Drain) }

  lemma {:induction false} DrainedIsARun(s: Sched)
    requires s.phase != Idle
    ensures Drained(s) == Execute(s, Drains(|s.release|))
    decreases |s.release|
  {
    if s.release != [] {
      assert Drains(|s.release|)[1..] == Drains(|s.release| - 1);
      DrainedIsARun(Step(s, Drain));
    }
  }

  /** What other goroutines do during a plan: until the first cleaning ends, from then to the decision, while the
      victims die and until the second cleaning ends, and from then to the second look. */
  datatype Others = Others(before: seq<Event>, between: seq<Event>, during: seq<Event>, after: seq<Event>) {
    predicate FromOutside()
    {
      AllFromOutside(before) && AllFromOutside(between) && AllFromOutside(during) && AllFromOutside(after)
    }

    function All(): seq<Event> { before + between + during + after }
  }

  ghost function PlanOutcome(s: Sched, others: Others, order: seq<Victim>): Sched
  {
    Rechecked(Decided(Cleaned(s, others.before, others.between), order), others)
  }

  /** One cleaning with what others do until it ends and what they do next. */
  ghost function Cleaned(s: Sched, until: seq<Event>, next: seq<Event>): Sched
  {
    Execute(Drained(Execute(s, until)), next)
  }

  ghost function Decided(s: Sched, order: seq<Victim>): Sched
  {
    if Enabled(s, Reserve) then Step(s, Reserve) else Step(s, Choose(order))
  }

  ghost function Rechecked(s: Sched, others: Others): Sched
  {
    if s.phase.Killing? then Step(Cleaned(s, others.during, others.after), Recheck) else s
  }

  lemma {:induction false} OutsideKeepsPlanning(s: Sched, events: seq<Event>)
    requires AllFromOutside(events)
    ensures Execute(s, events).phase == s.phase
    ensures s.tasks.Keys <= Execute(s, events).tasks.Keys
    ensures forall id :: id in s.tasks ==> Execute(s, events).tasks[id].req == s.tasks[id].req
    ensures forall id :: id in s.tasks ==> Execute(s, events).tasks[id].priority == s.tasks[id].priority
    decreases |events|
  {
    if events != [] {
      assert FromOutside(events[0]);
      var n := Step(s, events[0]);
      assert n.phase == s.phase && s.tasks.Keys <= n.tasks.Keys;
      assert forall id :: id in s.tasks ==> n.tasks[id].req == s.tasks[id].req && n.tasks[id].priority == s.tasks[id].priority;
      OutsideKeepsPlanning(n, events[1..]);
    }
  }

  /** What a plan does itself. */
  predicate PlansOwn(e: Event) { e.Drain? || e.Reserve? || e.Choose? || e.Recheck? }

  /** Every event is one of the plan's own or one of the listed events of others. */
  ghost predicate OwnOr(events: seq<Event>, listed: seq<Event>)
  {
    forall e :: e in events ==> PlansOwn(e) || e in listed
  }

  lemma {:induction false} CleaningIsARun(s: Sched, until: seq<Event>, next: seq<Event>) returns (events: seq<Event>)
    requires s.phase != Idle && AllFromOutside(until)
    ensures Execute(s, events) == Cleaned(s, until, next)
    ensures OwnOr(events, until + next)
  {
    OutsideKeepsPlanning(s, until);
    var n := |Execute(s, until).release|;
    DrainedIsARun(Execute(s, until));
    ExecuteAppend(s, until, Drains(n));
    ExecuteAppend(s, until + Drains(n), next);
    events := until + Drains(n) + next;
  }

  lemma {:induction false} RecheckIsARun(s: Sched, others: Others) returns (events: seq<Event>)
    requires others.FromOutside()
    ensures Execute(s, events) == Rechecked(s, others)
    ensures OwnOr(events, others.All())
  {
    if s.phase.Killing? {
      var cleaning := CleaningIsARun(s, others.during, others.after);
      ExtendRun(s, cleaning, Recheck);
      events := cleaning + [Recheck];
    } else {
      events := [];
    }
  }

  /** A plan is a sequence of machine events: its own, which schedule nothing, and those of the others. */
  lemma {:induction false} PlanIsARun(s: Sched, others: Others, order: seq<Victim>) returns (events: seq<Event>)
    requires s.phase.Planning? && others.FromOutside()
    ensures Execute(s, events) == PlanOutcome(s, others, order)
    ensures OwnOr(events, others.All())
  {
    var cleaning := CleaningIsARun(s, others.before, others.between);
    var cleaned := Cleaned(s, others.before, others.between);
    var decision := if Enabled(cleaned, Reserve) then Reserve else Choose(order);
    ExtendRun(s, cleaning, decision);
    var rechecking := RecheckIsARun(Decided(cleaned, order), others);
    ExecuteAppend(s, cleaning + [decision], rechecking);
    events := cleaning + [decision] + rechecking;
  }

  lemma NothingScheduled(others: Others, events: seq<Event>, total: Resources)
    requires others.FromOutside() && OwnOr(events, others.All())
    ensures HarmlessRequests(total, events)
  {
  }

  /** So a plan keeps what every run keeps, and leaves something free and no more than there is. */
  lemma PlanKeepsSafe(s: Sched, others: Others, order: seq<Victim>, total: Resources)
    requires Safe(s, total) && s.phase.Planning? && others.FromOutside()
    ensures var n := PlanOutcome(s, others, order);
            Safe(n, total) && n.free.Positive() && n.free.AtMost(total)
  {
    var events := PlanIsARun(s, others, order);
    NothingScheduled(others, events, total);
    RunKeepsSafe(s, total, events);
    SafeWithinTotal(PlanOutcome(s, others, order), total);
  }

  lemma ExtendRun(s: Sched, events: seq<Event>, e: Event)
    ensures Execute(s, events + [e]) == Step(Execute(s, events), e)
  {
    ExecuteAppend(s, events, [e]);
    assert [e][1..] == [];
    var m := Execute(s, events);
    assert Execute(m, [e]) == Execute(Step(m, e), []);
  }

  method SortWithPriorityAndLaunchTime(slice: seq<Victim>) returns (sorted: seq<Victim>)
    ensures InDyingOrder(sorted)
    ensures multiset(sorted) == multiset(slice)
    ensures forall i, j :: 0 <= i < j < |sorted| ==>
              || sorted[i].priority < sorted[j].priority
              || (sorted[i].priority == sorted[j].priority && sorted[i].launchTime >= sorted[j].launchTime)
  {
    sorted := SortSlice(slice, DiesBefore);
  }

  class Scheduler {
    var resources: Resources
    var resourceRelease: seq<Resources>
    var taskQueue: seq<TaskId>
    var tasks: map<TaskId, Task>
    /** The sleeping tasks of the shared wait queue. */
    var waitQueue: seq<TaskId>
    /** The goroutines started by `go s.execute` and `go s.waitForTaskComplete`. */
    var executing: map<TaskId, Exec>
    ghost var phase: Phase
    ghost var finished: set<TaskId>
    ghost var startFailed: set<TaskId>

    ghost function State(): Sched
      reads this
    {
      Sched(resources, resourceRelease, taskQueue, waitQueue, tasks, phase, executing, finished, startFailed)
    }

    constructor (total: Resources)
      ensures State() == Initial(total)
    {
      resources, resourceRelease, taskQueue, waitQueue := total, [], [], [];
      tasks, executing, phase, finished, startFailed := map[], map[], Idle, {}, {};
    }

    /** The id is the freshly generated UUID. */
    method ScheduleTask(req: TaskRequest, id: TaskId) returns (answer: Validation)
      requires id !in tasks
      modifies this
      ensures answer == ValidateTaskRequest(req)
      ensures State() == Step(old(State()), Schedule(id, req))
      ensures answer.Valid? <==>
                (0 <= req.resources.cpu || 0 <= req.resources.memory) && 0 <= req.priority && req.hasOnLaunchComplete
      ensures answer.Valid? ==>
                && tasks == old(tasks)[id := Task(req, req.priority, Queued, 0, 0, 0, 0)]
                && taskQueue == old(taskQueue) + [id]
      ensures answer.Invalid? ==> tasks == old(tasks) && taskQueue == old(taskQueue)
      ensures resources == old(resources) && resourceRelease == old(resourceRelease)
      ensures waitQueue == old(waitQueue) && executing == old(executing)
    {
      answer := ValidateTaskRequest(req);
      if answer.Valid? {
        tasks := tasks[id := Task(req, req.priority, Queued, 0, 0, 0, 0)];
        taskQueue := taskQueue + [id];
      }
    }

    method CleanTaskReleasedResources()
      modifies this`resources, this`resourceRelease
      ensures State() == Drained(old(State()))
      ensures resourceRelease == []
      ensures resources.cpu == old(resources.cpu) + InChannel(old(resourceRelease), false)
      ensures resources.memory == old(resources.memory) + InChannel(old(resourceRelease), true)
    {
      ReceivedIsSum(resources, resourceRelease);
      while resourceRelease != []
        invariant Received(resources, resourceRelease) == Received(old(resources), old(resourceRelease))
        decreases |resourceRelease|
      {
        var r := resourceRelease[0];
        resourceRelease := resourceRelease[1..];
        resources := resources.Plus(r);
      }
    }

    /** `queueWaitingTask`, called by the wait queue when the delay of the entry at `position` is over. */
    method QueueWaitingTask(position: nat)
      requires position < |waitQueue|
      modifies this`waitQueue, this`taskQueue
      ensures State() == Step(old(State()), Wake(position))
      ensures taskQueue == old(taskQueue) + [old(waitQueue)[position]]
      ensures waitQueue == old(waitQueue)[..position] + old(waitQueue)[position + 1..]
    {
      var id := waitQueue[position];
      waitQueue := waitQueue[..position] + waitQueue[position + 1..];
      taskQueue := taskQueue + [id];
    }

    method ExecuteLongRunningTask(id: TaskId, started: bool)
      requires Enabled(State(), Start(id, started))
      modifies this
      ensures State() == Step(old(State()), Start(id, started))
      ensures started ==>
                && executing == old(executing)[id := Up]
                && tasks == old(tasks)[id := old(tasks)[id].(state := Running, launchCalls := old(tasks)[id].launchCalls + 1)]
      ensures !started ==>
                && executing == old(executing) - {id} && id in finished && id in startFailed
                && tasks == old(tasks)[id := old(tasks)[id].(launchCalls := old(tasks)[id].launchCalls + 1)]
      ensures resources == old(resources) && resourceRelease == old(resourceRelease)
    {
      var t := tasks[id];
      if !started {
        tasks := tasks[id := t.(launchCalls := t.launchCalls + 1)];
        executing := executing - {id};
        finished, startFailed := finished + {id}, startFailed + {id};
        return;
      }
      tasks := tasks[id := t.(state := Running, launchCalls := t.launchCalls + 1)];
      executing := executing[id := Up];
    }

    /** A short task has run, or a process has exited: its resources go into the channel first. */
    method ReleaseAfterExit(id: TaskId, report: ExitReport)
      requires Enabled(State(), RunShort(id, report)) || Enabled(State(), Exit(id, report))
      modifies this`resourceRelease, this`executing
      ensures old(Enabled(State(), RunShort(id, report))) ==> State() == Step(old(State()), RunShort(id, report))
      ensures old(Enabled(State(), Exit(id, report))) ==> State() == Step(old(State()), Exit(id, report))
      ensures resourceRelease == old(resourceRelease) + [tasks[id].req.resources]
      ensures executing == old(executing)[id := Over(report)]
    {
      resourceRelease := resourceRelease + [tasks[id].req.resources];
      executing := executing[id := Over(report)];
    }

    /** The state update and the callback after the release. */
    method RecordResult(id: TaskId)
      requires Enabled(State(), Close(id))
      modifies this
      ensures State() == Step(old(State()), Close(id))
      ensures executing == old(executing) - {id} && finished == old(finished) + {id}
      ensures tasks.Keys == old(tasks).Keys && forall other :: other in tasks && other != id ==> tasks[other] == old(tasks)[other]
      ensures var before, t := old(tasks)[id], tasks[id];
              && t.state == StateFromReport(old(executing)[id].report)
              && (before.req.execType != LongRunning ==>
                    t.launchCalls == before.launchCalls + 1 && t.completeCalls == before.completeCalls)
              && (before.req.execType == LongRunning ==>
                    && t.launchCalls == before.launchCalls
                    && t.completeCalls == before.completeCalls + if before.req.hasOnTaskComplete then 1 else 0)
              && t.req == before.req && t.priority == before.priority && t.tries == before.tries
      ensures resources == old(resources) && resourceRelease == old(resourceRelease)
    {
      var t := tasks[id].(state := StateFromReport(executing[id].report));
      if t.req.execType != LongRunning {
        t := t.(launchCalls := t.launchCalls + 1);
      } else if t.req.hasOnTaskComplete {
        t := t.(completeCalls := t.completeCalls + 1);
      }
      tasks := tasks[id := t];
      executing := executing - {id};
      finished := finished + {id};
    }

    /** Whatever the other goroutines do meanwhile; events that cannot happen are skipped. */
    method Meanwhile(events: seq<Event>)
      requires AllFromOutside(events)
      modifies this
      ensures State() == Execute(old(State()), events)
    {
      for i := 0 to |events|
        invariant Execute(State(), events[i..]) == Execute(old(State()), events)
      {
        var e := events[i];
        assert e in events && events[i..][0] == e && events[i..][1..] == events[i + 1..];
        match e
        case Wake(position) =>
          if position < |waitQueue| { QueueWaitingTask(position); }
        case Start(id, started) =>
          if id in executing && executing[id] == Starting && id in tasks && tasks[id].req.execType == LongRunning {
            ExecuteLongRunningTask(id, started);
          }
        case RunShort(id, report) =>
          if id in executing && executing[id] == Starting && id in tasks && tasks[id].req.execType != LongRunning
             && (tasks[id].req.execType == OtherType ==> report == OtherError) {
            ReleaseAfterExit(id, report);
          }
        case Exit(id, report) =>
          if id in executing && executing[id] == Up && id in tasks { ReleaseAfterExit(id, report); }
        case Close(id) =>
          if id in executing && executing[id].Over? && id in tasks { RecordResult(id); }
      }
    }

    /** The lower-priority running tasks, in the order the map happens to be traversed. */
    method CollectCandidates(need: Task) returns (found: seq<Victim>)
      ensures Lists(found, Candidates(State(), need))
      ensures forall v :: v in found <==>
                && v.id in tasks
                && tasks[v.id].priority < need.priority
                && tasks[v.id].req.execType == LongRunning
                && tasks[v.id].state == Running
                && v == Victim(v.id, tasks[v.id].priority, tasks[v.id].launchTime, tasks[v.id].req.resources)
    {
      found := [];
      var rest := tasks.Keys;
      while rest != {}
        invariant rest <= tasks.Keys
        invariant forall i, j :: 0 <= i < j < |found| ==> found[i] != found[j]
        invariant forall v :: v in found <==>
                    v.id in tasks.Keys - rest && IsCandidate(tasks[v.id], need) && v == VictimOf(v.id, tasks[v.id])
        decreases rest
      {
        var id :| id in rest;
        if IsCandidate(tasks[id], need) {
          found := found + [VictimOf(id, tasks[id])];
        }
        rest := rest - {id};
      }
    }

    /** The candidates in dying order, and as many of them as it takes; nobody if even all of them are not enough. */
    method PickVictims(need: Task) returns (order: seq<Victim>, victims: seq<Victim>)
      ensures Lists(order, Candidates(State(), need)) && InDyingOrder(order)
      ensures victims == ChosenVictims(resources, need.req.resources, order)
      ensures victims <= order && LowerRunning(State(), need.priority, SetOf(victims))
    {
      LowerRunningAreCandidates(State(), need, Candidates(State(), need));
      var lowPriorityTasks := CollectCandidates(need);
      order := SortWithPriorityAndLaunchTime(lowPriorityTasks);
      ListsPermuted(lowPriorityTasks, order, Candidates(State(), need));
      victims := TakeVictims(need.req.resources, order);
    }

    /** Adds up what the tasks hold, in order, until it is enough. */
    method TakeVictims(need: Resources, order: seq<Victim>) returns (victims: seq<Victim>)
      ensures victims == ChosenVictims(resources, need, order)
    {
      var finalResources, n := resources, 0;
      victims := [];
      while n < |order|
        invariant n <= |order| && victims == order[..n]
        invariant finalResources == Freed(resources, victims)
        invariant Taken(resources, need, order) == n + Taken(finalResources, need, order[n..])
      {
        FreedAppend(resources, victims, order[n]);
        finalResources := finalResources.Plus(order[n].resources);
        victims := victims + [order[n]];
        assert order[n..][1..] == order[n + 1..];
        n := n + 1;
        if finalResources.Greater(need) {
          break;
        }
      }
      assert victims == order[..Taken(resources, need, order)];
      if !finalResources.Greater(need) {
        victims := [];
      }
    }

    /** `Resources.use` behind the check that guards it. */
    method ReserveIfGreater(id: TaskId) returns (ok: bool)
      requires id in tasks
      modifies this`resources, this`phase
      ensures ok == old(resources.Greater(tasks[id].req.resources))
      ensures ok <==> old(resources).cpu > tasks[id].req.resources.cpu && old(resources).memory > tasks[id].req.resources.memory
      ensures ok ==> resources.cpu == old(resources).cpu - tasks[id].req.resources.cpu
      ensures ok ==> resources.memory == old(resources).memory - tasks[id].req.resources.memory
      ensures resources == if ok then old(resources).Minus(tasks[id].req.resources) else old(resources)
      ensures phase == if ok then Granted(id) else old(phase)
    {
      ok := resources.Greater(tasks[id].req.resources);
      if ok {
        resources := resources.Minus(tasks[id].req.resources);
        phase := Granted(id);
      }
    }

    /** The first half of `plan`, after the cleaning: take what is free, or choose victims, or give up. */
    method Decide(id: TaskId) returns (canLaunch: bool, tasksToKill: seq<Victim>, ghost order: seq<Victim>)
      requires phase == Planning(id) && id in tasks
      modifies this`resources, this`phase
      ensures State() == Decided(old(State()), order)
      ensures phase == if canLaunch then Granted(id) else if tasksToKill == [] then Denied(id) else Killing(id, tasksToKill)
      ensures canLaunch <==>
                old(resources).cpu > tasks[id].req.resources.cpu && old(resources).memory > tasks[id].req.resources.memory
      ensures canLaunch ==> resources == old(resources).Minus(tasks[id].req.resources) && tasksToKill == []
      ensures !canLaunch ==> resources == old(resources)
      ensures LowerRunning(State(), tasks[id].priority, SetOf(tasksToKill))
    {
      order, tasksToKill := [], [];
      canLaunch := ReserveIfGreater(id);
      if !canLaunch {
        var candidates;
        candidates, tasksToKill := PickVictims(tasks[id]);
        order := candidates;
        phase := if tasksToKill == [] then Denied(id) else Killing(id, tasksToKill);
      }
    }

    /** The second half: the victims are signalled and release what they hold as they exit; then look again. */
    method KillAndRecheck(id: TaskId, others: Others) returns (canLaunch: bool, ghost seen: Resources)
      requires phase.Killing? && phase.id == id && id in tasks
      requires others.FromOutside()
      modifies this
      ensures State() == Rechecked(old(State()), others)
      ensures id in tasks
      ensures phase == if canLaunch then Granted(id) else Denied(id)
      ensures seen == Cleaned(old(State()), others.during, others.after).free
      ensures canLaunch <==> seen.cpu > tasks[id].req.resources.cpu && seen.memory > tasks[id].req.resources.memory
      ensures resources == if canLaunch then seen.Minus(tasks[id].req.resources) else seen
    {
      OutsideKeepsPlanning(State(), others.during);
      Meanwhile(others.during);
      CleanTaskReleasedResources();
      OutsideKeepsPlanning(State(), others.after);
      Meanwhile(others.after);
      seen := resources;
      canLaunch := ReserveIfGreater(id);
      if !canLaunch {
        phase := Denied(id);
      }
    }

    method Plan(id: TaskId, others: Others) returns (canLaunch: bool, ghost order: seq<Victim>)
      requires phase == Planning(id) && id in tasks
      requires others.FromOutside()
      modifies this
      ensures State() == PlanOutcome(old(State()), others, order)
      ensures phase == if canLaunch then Granted(id) else Denied(id)
      ensures id in tasks
      ensures forall total :: Safe(old(State()), total) ==> Safe(State(), total) && resources.Positive() && resources.AtMost(total)
    {
      OutsideKeepsPlanning(State(), others.before);
      Meanwhile(others.before);
      CleanTaskReleasedResources();
      OutsideKeepsPlanning(State(), others.between);
      Meanwhile(others.between);
      ghost var cleaned := State();
      assert cleaned == Cleaned(old(State()), others.before, others.between);
      var tasksToKill;
      canLaunch, tasksToKill, order := Decide(id);
      ghost var decided := State();
      assert decided == Decided(cleaned, order);
      if !canLaunch && tasksToKill != [] {
        ghost var seen;
        canLaunch, seen := KillAndRecheck(id, others);
      }
      assert State() == Rechecked(decided, others);
      forall total | Safe(old(State()), total)
        ensures Safe(State(), total) && resources.Positive() && resources.AtMost(total)
      {
        PlanKeepsSafe(old(State()), others, order, total);
      }
    }

    /** One turn of the launching goroutine. */
    method LaunchTask(now: int, others: Others) returns (ghost order: seq<Victim>)
      requires phase == Idle && taskQueue != []
      requires others.FromOutside()
      modifies this
      ensures State() == LaunchOutcome(old(State()), now, others, order)
      ensures forall total :: Safe(old(State()), total) ==> Safe(State(), total) && resources.Positive() && resources.AtMost(total)
    {
      var id := taskQueue[0];
      taskQueue := taskQueue[1..];
      order := [];
      if id in tasks {
        phase := Planning(id);
        tasks := tasks[id := tasks[id].(tries := tasks[id].tries + 1)];
        assert State() == Step(old(State()), Begin);
        var canLaunch;
        canLaunch, order := Plan(id, others);
        FinishLaunching(id, canLaunch, now);
      }
      assert State() == LaunchOutcome(old(State()), now, others, order);
      forall total | Safe(old(State()), total)
        ensures Safe(State(), total) && resources.Positive() && resources.AtMost(total)
      {
        LaunchKeepsSafe(old(State()), now, others, order, total);
      }
    }

    method FinishLaunching(id: TaskId, canLaunch: bool, now: int)
      requires id in tasks && phase == if canLaunch then Granted(id) else Denied(id)
      modifies this
      ensures State() == Step(old(State()), Finish(now))
      ensures phase == Idle && resources == old(resources) && resourceRelease == old(resourceRelease)
      ensures canLaunch ==>
                && executing == old(executing)[id := Starting]
                && tasks == old(tasks)[id := old(tasks)[id].(launchTime := now)]
                && waitQueue == old(waitQueue) && finished == old(finished)
      ensures !canLaunch && old(tasks)[id].req.retries <= old(tasks)[id].tries ==>
                && finished == old(finished) + {id} && waitQueue == old(waitQueue) && executing == old(executing)
                && tasks == old(tasks)[id := old(tasks)[id].(state := Failed, launchCalls := old(tasks)[id].launchCalls + 1)]
      ensures !canLaunch && old(tasks)[id].tries < old(tasks)[id].req.retries ==>
                && waitQueue == old(waitQueue) + [id] && finished == old(finished) && executing == old(executing)
                && tasks == old(tasks)[id := old(tasks)[id].(priority := old(tasks)[id].priority + 10)]
    {
      var t := tasks[id];
      if canLaunch {
        tasks := tasks[id := t.(launchTime := now)];
        executing := executing[id := Starting];
      } else if t.tries >= t.req.retries {
        tasks := tasks[id := t.(state := Failed, launchCalls := t.launchCalls + 1)];
        finished := finished + {id};
      } else {
        tasks := tasks[id := t.(priority := t.priority + 10)];
        waitQueue := waitQueue + [id];
      }
      phase := Idle;
    }
  }

  ghost function LaunchOutcome(s: Sched, now: int, others: Others, order: seq<Victim>): Sched
  {
    var begun := Step(s, Begin);
    if begun.phase == Idle then begun else Step(PlanOutcome(begun, others, order), Finish(now))
  }

  /** So a whole launch is a run of the machine as well. */
  lemma {:induction false} LaunchIsARun(s: Sched, now: int, others: Others, order: seq<Victim>) returns (events: seq<Event>)
    requires others.FromOutside() && s.phase == Idle && s.taskQueue != []
    ensures Execute(s, events) == LaunchOutcome(s, now, others, order)
    ensures forall e :: e in events ==> e == Begin || e == Finish(now) || PlansOwn(e) || e in others.All()
  {
    var begun := Step(s, Begin);
    if begun.phase == Idle {
      ExecuteFirst(s, Begin, []);
      events := [Begin];
    } else {
      var planning := PlanIsARun(begun, others, order);
      ExtendRun(begun, planning, Finish(now));
      ExecuteFirst(s, Begin, planning + [Finish(now)]);
      events := [Begin] + (planning + [Finish(now)]);
    }
  }

  /** And keeps what every run keeps. */
  lemma LaunchKeepsSafe(s: Sched, now: int, others: Others, order: seq<Victim>, total: Resources)
    requires Safe(s, total) && others.FromOutside() && s.phase == Idle && s.taskQueue != []
    ensures var n := LaunchOutcome(s, now, others, order);
            Safe(n, total) && n.free.Positive() && n.free.AtMost(total)
  {
    var events := LaunchIsARun(s, now, others, order);
    assert HarmlessRequests(total, events);
    RunKeepsSafe(s, total, events);
    SafeWithinTotal(LaunchOutcome(s, now, others, order), total);
  }

  lemma {:induction false} FreedAppend(free: Resources, victims: seq<Victim>, v: Victim)
    ensures Freed(free, victims + [v]) == Freed(free, victims).Plus(v.resources)
    decreases |victims|
  {
    if victims == [] {
      assert [v][1..] == [];
    } else {
      assert (victims + [v])[1..] == victims[1..] + [v];
      FreedAppend(free.Plus(victims[0].resources), victims[1..], v);
    }
  }
}
