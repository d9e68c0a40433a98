/** What holds in every state the scheduler can reach, under every interleaving. */
module SchedulerSafety {
  import opened Resource
  import opened KillPlan
  import opened Sums
  import opened SchedulerModel

  // ---- Where a task is, and what its record then says ----

  ghost predicate Launching(s: Sched, id: TaskId) { s.phase != Idle && s.phase.id == id }

  /** In how many places the id is: queues, launching goroutine, executing goroutine, finished. */
  ghost function Places(s: Sched, id: TaskId): nat
  {
    multiset(s.taskQueue)[id] + multiset(s.waitQueue)[id] +
    (if Launching(s, id) then 1 else 0) + (if id in s.exec then 1 else 0) + (if id in s.finished then 1 else 0)
  }

  ghost predicate InOnePlace(s: Sched, id: TaskId) { Places(s, id) == if id in s.tasks then 1 else 0 }

  function TryLimit(t: Task): int { if t.req.retries <= 1 then 1 else t.req.retries }

  /** The priority has grown by ten for every postponement. */
  predicate Aged(t: Task, postponed: int) { t.priority == t.req.priority + 10 * postponed }

  predicate Untouched(t: Task) { t.state == Queued && t.launchCalls == 0 && t.completeCalls == 0 }

  predicate RunningProcess(t: Task)
  {
    t.req.execType == LongRunning && t.state == Running && t.launchCalls == 1 && t.completeCalls == 0
  }

  ghost predicate RecordFits(s: Sched, id: TaskId)
    requires id in s.tasks
  {
    var t := s.tasks[id];
    && t.tries <= TryLimit(t)
    && (id in s.taskQueue || id in s.waitQueue ==> Untouched(t) && Aged(t, t.tries) && t.tries < TryLimit(t))
    && (Launching(s, id) || id in s.exec || id in s.finished ==> 1 <= t.tries && Aged(t, t.tries - 1))
    && (Launching(s, id) ==> Untouched(t))
    && (id in s.exec ==>
          match s.exec[id]
          case Starting => Untouched(t)
          case Up => RunningProcess(t)
          case Over(_) => if t.req.execType == LongRunning then RunningProcess(t) else Untouched(t))
    && (id in s.finished ==>
          && t.launchCalls == 1 && t.completeCalls <= 1
          && (t.completeCalls == 1 ==> t.req.execType == LongRunning && id !in s.startFailed)
          && (if id in s.startFailed then t.req.execType == LongRunning && t.state == Queued else t.state.Terminal()))
  }

  ghost predicate Tracked(s: Sched)
  {
    && s.startFailed <= s.finished
    && (forall id :: InOnePlace(s, id))
    && (forall id :: id in s.tasks ==> RecordFits(s, id))
  }

  lemma QueueHead(s: Sched, e: Event)
    requires Enabled(s, e)
    ensures e.Begin? ==> multiset(s.taskQueue) == multiset{s.taskQueue[0]} + multiset(s.taskQueue[1..])
    ensures e.Wake? ==> multiset(s.waitQueue) ==
                        multiset{s.waitQueue[e.position]} + multiset(s.waitQueue[..e.position] + s.waitQueue[e.position + 1..])
  {
    if e.Begin? {
      assert s.taskQueue == [s.taskQueue[0]] + s.taskQueue[1..];
    }
    if e.Wake? {
      assert s.waitQueue == s.waitQueue[..e.position] + [s.waitQueue[e.position]] + s.waitQueue[e.position + 1..];
    }
  }

  predicate MovesQueues(e: Event) { e.Schedule? || e.Wake? || e.Begin? }

  predicate MovesExecution(e: Event) { e.Start? || e.RunShort? || e.Exit? || e.Close? }

  lemma StepKeepsPlaces(s: Sched, e: Event, id: TaskId)
    requires InOnePlace(s, id)
    ensures InOnePlace(Step(s, e), id)
  {
    if Enabled(s, e) {
      if MovesQueues(e) {
        QueueStepKeepsPlaces(s, e, id);
      } else if MovesExecution(e) {
        ExecStepKeepsPlaces(s, e, id);
      } else {
        LaunchStepKeepsPlaces(s, e, id);
      }
    }
  }

  lemma QueueStepKeepsPlaces(s: Sched, e: Event, id: TaskId)
    requires Enabled(s, e) && MovesQueues(e) && InOnePlace(s, id)
    ensures InOnePlace(Step(s, e), id)
  {
    QueueHead(s, e);
  }

  lemma LaunchStepKeepsPlaces(s: Sched, e: Event, id: TaskId)
    requires Enabled(s, e) && !MovesQueues(e) && !MovesExecution(e) && InOnePlace(s, id)
    ensures InOnePlace(Step(s, e), id)
  {
  }

  lemma ExecStepKeepsPlaces(s: Sched, e: Event, id: TaskId)
    requires Enabled(s, e) && MovesExecution(e) && InOnePlace(s, id)
    ensures InOnePlace(Step(s, e), id)
  {
  }

  /** The places exclude one another. */
  ghost predicate Separate(s: Sched, id: TaskId)
  {
    && (id in s.taskQueue || id in s.waitQueue ==> !Launching(s, id) && id !in s.exec && id !in s.finished)
    && (Launching(s, id) ==> id !in s.exec && id !in s.finished)
    && (id in s.exec ==> id !in s.finished)
  }

  lemma PlacesExclude(s: Sched, id: TaskId)
    requires InOnePlace(s, id)
    ensures Separate(s, id)
    ensures id in s.taskQueue || id in s.waitQueue || Launching(s, id) || id in s.exec || id in s.finished <==> id in s.tasks
  {
    assert id in s.taskQueue <==> id in multiset(s.taskQueue);
    assert id in s.waitQueue <==> id in multiset(s.waitQueue);
  }

  lemma StepKeepsRecord(s: Sched, e: Event, id: TaskId)
    requires s.startFailed <= s.finished
    requires InOnePlace(s, id) && (id in s.tasks ==> RecordFits(s, id))
    ensures id in Step(s, e).tasks ==> RecordFits(Step(s, e), id)
  {
    if Enabled(s, e) {
      PlacesExclude(s, id);
      StepKeepsPlaces(s, e, id);
      PlacesExclude(Step(s, e), id);
      if MovesQueues(e) {
        QueueStepKeepsRecord(s, e, id);
      } else if MovesExecution(e) {
        ExecStepKeepsRecord(s, e, id);
      } else {
        LaunchStepKeepsRecord(s, e, id);
      }
    }
  }

  lemma QueueStepKeepsRecord(s: Sched, e: Event, id: TaskId)
    requires Enabled(s, e) && MovesQueues(e)
    requires Separate(s, id) && Separate(Step(s, e), id)
    requires id !in s.tasks ==> !Launching(s, id) && id !in s.exec && id !in s.finished
    requires id in s.tasks ==> RecordFits(s, id)
    ensures id in Step(s, e).tasks ==> RecordFits(Step(s, e), id)
  {
    var n := Step(s, e);
    assert id in n.waitQueue ==> id in s.waitQueue;
    if e.Begin? && s.taskQueue[0] == id {
      assert id in s.taskQueue;
    }
    if e.Wake? && s.waitQueue[e.position] == id {
      assert id in s.waitQueue;
    }
    assert id in n.taskQueue ==> id in s.taskQueue || id in s.waitQueue || (e.Schedule? && id == e.id);
  }

  lemma LaunchStepKeepsRecord(s: Sched, e: Event, id: TaskId)
    requires Enabled(s, e) && !MovesQueues(e) && !MovesExecution(e)
    requires s.startFailed <= s.finished
    requires Separate(s, id) && Separate(Step(s, e), id)
    requires id in s.tasks ==> RecordFits(s, id)
    ensures id in Step(s, e).tasks ==> RecordFits(Step(s, e), id)
  {
  }

  lemma ExecStepKeepsRecord(s: Sched, e: Event, id: TaskId)
    requires Enabled(s, e) && MovesExecution(e)
    requires s.startFailed <= s.finished
    requires Separate(s, id)
    requires id in s.tasks ==> RecordFits(s, id)
    ensures id in Step(s, e).tasks ==> RecordFits(Step(s, e), id)
  {
  }

  lemma StepKeepsTracked(s: Sched, e: Event)
    requires Tracked(s)
    ensures Tracked(Step(s, e))
  {
    var n := Step(s, e);
    forall id ensures InOnePlace(n, id) {
      StepKeepsPlaces(s, e, id);
    }
    forall id | id in n.tasks ensures RecordFits(n, id) {
      assert InOnePlace(s, id);
      StepKeepsRecord(s, e, id);
    }
  }

  lemma {:induction false} RunKeepsTracked(s: Sched, events: seq<Event>)
    requires Tracked(s)
    ensures Tracked(Execute(s, events))
    decreases |events|
  {
    if events != [] {
      StepKeepsTracked(s, events[0]);
      RunKeepsTracked(Step(s, events[0]), events[1..]);
    }
  }

  // ---- Conservation of resources ----

  /** One component of an amount. */
  function Part(r: Resources, memory: bool): int { if memory then r.memory else r.cpu }

  /** What a launched, unfinished task has reserved. */
  ghost function ReservedBy(s: Sched, id: TaskId): Resources
    requires id in s.tasks
  {
    if (s.phase.Granted? && s.phase.id == id) || (id in s.exec && !s.exec[id].Over?)
    then s.tasks[id].req.resources else ZERO
  }

  /** What a failed start never gives back. */
  ghost function StrandedBy(s: Sched, id: TaskId): Resources
    requires id in s.tasks
  {
    if id in s.startFailed then s.tasks[id].req.resources else ZERO
  }

  ghost function Reservations(s: Sched, memory: bool): map<TaskId, int>
  {
    map id | id in s.tasks :: Part(ReservedBy(s, id), memory)
  }

  ghost function Stranded(s: Sched, memory: bool): map<TaskId, int>
  {
    map id | id in s.tasks :: Part(StrandedBy(s, id), memory)
  }

  function InChannel(release: seq<Resources>, memory: bool): int
  {
    if release == [] then 0 else Part(release[0], memory) + InChannel(release[1..], memory)
  }

  lemma {:induction false} InChannelAppend(release: seq<Resources>, r: Resources, memory: bool)
    ensures InChannel(release + [r], memory) == InChannel(release, memory) + Part(r, memory)
  {
    if release != [] {
      assert (release + [r])[1..] == release[1..] + [r];
      InChannelAppend(release[1..], r, memory);
    }
  }

  /** Free + reserved + in the release channel + stranded. */
  ghost function Balance(s: Sched, memory: bool): int
  {
    Part(s.free, memory) + Sum(Reservations(s, memory)) + InChannel(s.release, memory) + Sum(Stranded(s, memory))
  }

  ghost predicate Conserved(s: Sched, total: Resources)
  {
    Balance(s, false) == total.cpu && Balance(s, true) == total.memory
  }

  /** The one task whose amounts a step may change. */
  ghost function Touched(s: Sched, e: Event): TaskId
    requires Enabled(s, e) && !MovesQueues(e)
  {
    if MovesExecution(e) then e.id else s.phase.id
  }

  lemma OthersUnchanged(s: Sched, e: Event, j: TaskId)
    requires Enabled(s, e) && !MovesQueues(e) && Touched(s, e) in s.tasks
    requires j in s.tasks && j != Touched(s, e)
    ensures Step(s, e).tasks.Keys == s.tasks.Keys
    ensures ReservedBy(Step(s, e), j) == ReservedBy(s, j) && StrandedBy(Step(s, e), j) == StrandedBy(s, j)
  {
    assert Step(s, e).tasks.Keys == s.tasks.Keys;
  }

  lemma OnlyOneTaskChanges(s: Sched, e: Event, memory: bool)
    requires Enabled(s, e) && !MovesQueues(e) && Touched(s, e) in s.tasks
    ensures var n, k := Step(s, e), Touched(s, e);
            && n.tasks.Keys == s.tasks.Keys
            && Sum(Reservations(n, memory)) ==
               Sum(Reservations(s, memory)) - Part(ReservedBy(s, k), memory) + Part(ReservedBy(n, k), memory)
            && Sum(Stranded(n, memory)) ==
               Sum(Stranded(s, memory)) - Part(StrandedBy(s, k), memory) + Part(StrandedBy(n, k), memory)
  {
    var n, k := Step(s, e), Touched(s, e);
    assert n.tasks.Keys == s.tasks.Keys;
    var (r0, r1) := (Reservations(s, memory), Reservations(n, memory));
    var (t0, t1) := (Stranded(s, memory), Stranded(n, memory));
    assert (forall j :: j in r0 && j != k ==> r1[j] == r0[j]) && (forall j :: j in t0 && j != k ==> t1[j] == t0[j]) by {
      forall j | j in s.tasks && j != k ensures r1[j] == r0[j] && t1[j] == t0[j] {
        OthersUnchanged(s, e, j);
      }
    }
    SumChangesAt(r0, r1, k);
    SumChangesAt(t0, t1, k);
  }

  /** At the touched task, what leaves one pot enters another. */
  lemma TouchedTaskBalances(s: Sched, e: Event, memory: bool)
    requires Enabled(s, e) && !MovesQueues(e) && s.startFailed <= s.finished
    requires Touched(s, e) in s.tasks && InOnePlace(s, Touched(s, e)) && Touched(s, e) in Step(s, e).tasks
    ensures var n, k := Step(s, e), Touched(s, e);
            Part(n.free, memory) + Part(ReservedBy(n, k), memory) + InChannel(n.release, memory) + Part(StrandedBy(n, k), memory) ==
            Part(s.free, memory) + Part(ReservedBy(s, k), memory) + InChannel(s.release, memory) + Part(StrandedBy(s, k), memory)
  {
    PlacesExclude(s, Touched(s, e));
    if e.RunShort? || e.Exit? {
      InChannelAppend(s.release, s.tasks[e.id].req.resources, memory);
    }
  }

  lemma QueueStepKeepsAmounts(s: Sched, e: Event, memory: bool)
    requires Enabled(s, e) && (e.Wake? || e.Begin?)
    requires e.Begin? ==> InOnePlace(s, s.taskQueue[0])
    ensures Reservations(Step(s, e), memory) == Reservations(s, memory)
    ensures Stranded(Step(s, e), memory) == Stranded(s, memory)
  {
    var n := Step(s, e);
    if e.Begin? { PlacesExclude(s, s.taskQueue[0]); }
    assert n.tasks.Keys == s.tasks.Keys;
    assert forall id :: id in s.tasks ==> ReservedBy(n, id) == ReservedBy(s, id) && StrandedBy(n, id) == StrandedBy(s, id);
  }

  lemma ScheduleKeepsAmounts(s: Sched, e: Event, memory: bool)
    requires Enabled(s, e) && e.Schedule? && InOnePlace(s, e.id) && s.startFailed <= s.finished
    ensures Reservations(Step(s, e), memory) == Reservations(s, memory)[e.id := 0]
    ensures Stranded(Step(s, e), memory) == Stranded(s, memory)[e.id := 0]
  {
    var n := Step(s, e);
    PlacesExclude(s, e.id);
    assert n.tasks.Keys == s.tasks.Keys + {e.id};
    assert forall id :: id in s.tasks ==> ReservedBy(n, id) == ReservedBy(s, id) && StrandedBy(n, id) == StrandedBy(s, id);
  }

  lemma StepKeepsBalance(s: Sched, e: Event, memory: bool)
    requires s.startFailed <= s.finished && forall id :: InOnePlace(s, id)
    ensures Balance(Step(s, e), memory) == Balance(s, memory)
  {
    if Enabled(s, e) {
      if e.Schedule? {
        ScheduleKeepsAmounts(s, e, memory);
        SumInsert(Reservations(s, memory), e.id, 0);
        SumInsert(Stranded(s, memory), e.id, 0);
      } else if MovesQueues(e) {
        QueueStepKeepsAmounts(s, e, memory);
      } else {
        PlacesExclude(s, Touched(s, e));
        OnlyOneTaskChanges(s, e, memory);
        TouchedTaskBalances(s, e, memory);
      }
    }
  }

  /** In every reachable state nothing is lost and nothing is invented. */
  lemma {:induction false} ResourcesConserved(s: Sched, total: Resources, events: seq<Event>)
    requires Tracked(s) && Conserved(s, total)
    ensures Conserved(Execute(s, events), total)
    decreases |events|
  {
    if events != [] {
      StepKeepsTracked(s, events[0]);
      StepKeepsBalance(s, events[0], false);
      StepKeepsBalance(s, events[0], true);
      ResourcesConserved(Step(s, events[0]), total, events[1..]);
    }
  }

  // ---- Free resources stay positive ----

  /** A request that can be granted without making more free than there is, or that can never be granted at all. */
  predicate Harmless(total: Resources, r: Resources) { r.NonNegative() || !total.Greater(r) }

  ghost predicate HarmlessRequests(total: Resources, events: seq<Event>)
  {
    forall e :: e in events && e.Schedule? && ValidateTaskRequest(e.req).Valid? ==> Harmless(total, e.req.resources)
  }

  /** The task has been granted what it asked for. */
  ghost predicate Committed(s: Sched, id: TaskId)
  {
    (s.phase.Granted? && s.phase.id == id) || id in s.exec || id in s.startFailed
  }

  ghost predicate Solvent(s: Sched, total: Resources)
  {
    && s.free.Positive()
    && (forall r :: r in s.release ==> r.NonNegative())
    && (forall id :: id in s.tasks ==> Harmless(total, s.tasks[id].req.resources))
    && (forall id :: id in s.tasks && Committed(s, id) ==> s.tasks[id].req.resources.NonNegative())
  }

  /** What every run keeps. */
  ghost predicate Safe(s: Sched, total: Resources) { Tracked(s) && Conserved(s, total) && Solvent(s, total) }

  lemma RequestsKept(s: Sched, e: Event, id: TaskId)
    requires Enabled(s, e) && id in Step(s, e).tasks
    ensures id in s.tasks ==> Step(s, e).tasks[id].req == s.tasks[id].req
    ensures id !in s.tasks ==> e.Schedule? && Step(s, e).tasks[id].req == e.req
  {
  }

  /** A task becomes committed only when it is granted what it asks for, out of what is free. */
  lemma NewlyCommitted(s: Sched, e: Event, id: TaskId)
    requires Enabled(s, e) && InOnePlace(s, id) && s.startFailed <= s.finished
    requires id in Step(s, e).tasks && Committed(Step(s, e), id)
    ensures id in s.tasks
    ensures Committed(s, id) || s.free.Greater(s.tasks[id].req.resources)
  {
    PlacesExclude(s, id);
  }

  lemma StepKeepsSolvent(s: Sched, e: Event, total: Resources)
    requires Tracked(s) && Solvent(s, total) && s.free.AtMost(total) && HarmlessRequests(total, [e])
    ensures Solvent(Step(s, e), total)
  {
    var n := Step(s, e);
    if Enabled(s, e) {
      assert e in [e];
      forall id | id in n.tasks
        ensures Harmless(total, n.tasks[id].req.resources)
        ensures Committed(n, id) ==> n.tasks[id].req.resources.NonNegative()
      {
        RequestsKept(s, e, id);
        assert InOnePlace(s, id);
        if Committed(n, id) {
          NewlyCommitted(s, e, id);
        }
      }
      StepKeepsPotsPositive(s, e, total);
    }
  }

  lemma StepKeepsPotsPositive(s: Sched, e: Event, total: Resources)
    requires Solvent(s, total) && Enabled(s, e)
    ensures Step(s, e).free.Positive() && forall r :: r in Step(s, e).release ==> r.NonNegative()
  {
    var n := Step(s, e);
    if e.RunShort? || e.Exit? {
      assert Committed(s, e.id);
      assert n.release == s.release + [s.tasks[e.id].req.resources];
    }
    if e.Drain? {
      assert s.release[0] in s.release;
    }
  }

  lemma {:induction false} ChannelNonNegative(release: seq<Resources>, memory: bool)
    requires forall r :: r in release ==> r.NonNegative()
    ensures 0 <= InChannel(release, memory)
  {
    if release != [] {
      assert release[0] in release;
      ChannelNonNegative(release[1..], memory);
    }
  }

  lemma FreeWithinTotal(s: Sched, total: Resources, memory: bool)
    requires Solvent(s, total)
    ensures Part(s.free, memory) <= Balance(s, memory)
  {
    ChannelNonNegative(s.release, memory);
    assert forall id :: id in s.tasks ==> ReservedBy(s, id).NonNegative() && StrandedBy(s, id).NonNegative();
    SumNonNegative(Reservations(s, memory));
    SumNonNegative(Stranded(s, memory));
  }

  lemma SafeWithinTotal(s: Sched, total: Resources)
    requires Safe(s, total)
    ensures s.free.Positive() && s.free.AtMost(total)
  {
    FreeWithinTotal(s, total, false);
    FreeWithinTotal(s, total, true);
  }

  lemma {:induction false} RunKeepsSafe(s: Sched, total: Resources, events: seq<Event>)
    requires Safe(s, total) && HarmlessRequests(total, events)
    ensures Safe(Execute(s, events), total)
    decreases |events|
  {
    if events != [] {
      SafeWithinTotal(s, total);
      StepKeepsSolvent(s, events[0], total);
      StepKeepsTracked(s, events[0]);
      StepKeepsBalance(s, events[0], false);
      StepKeepsBalance(s, events[0], true);
      RunKeepsSafe(Step(s, events[0]), total, events[1..]);
    }
  }

  lemma InitialIsSafe(total: Resources)
    requires total.Positive()
    ensures Safe(Initial(total), total)
  {
    var start := Initial(total);
    assert Reservations(start, false) == Reservations(start, true) == map[];
    assert Stranded(start, false) == Stranded(start, true) == map[];
  }

  /** The whole account of a run: everything tracked, nothing lost, something always free, never more than the total. */
  lemma SchedulerRunsSafely(total: Resources, events: seq<Event>)
    requires total.Positive() && HarmlessRequests(total, events)
    ensures var s := Execute(Initial(total), events);
            Tracked(s) && Conserved(s, total) && s.free.Positive() && s.free.AtMost(total)
  {
    InitialIsSafe(total);
    RunKeepsSafe(Initial(total), total, events);
    SafeWithinTotal(Execute(Initial(total), events), total);
  }

  lemma {:induction false} ExecuteFirst(s: Sched, e: Event, rest: seq<Event>)
    ensures Execute(s, [e] + rest) == Execute(Step(s, e), rest)
  {
    assert ([e] + rest)[1..] == rest;
  }

  /** Alone in the scheduler, a request that fits is granted, whatever its signs. */
  lemma LoneRequestIsGranted(total: Resources, id: TaskId, req: TaskRequest)
    requires ValidateTaskRequest(req).Valid? && total.Greater(req.resources)
    ensures Execute(Initial(total), [Schedule(id, req), Begin, Reserve]).free == total.Minus(req.resources)
  {
    var scheduled := Step(Initial(total), Schedule(id, req));
    var begun := Step(scheduled, Begin);
    assert begun.phase == Planning(id) && begun.free == total && begun.tasks[id].req == req;
    ExecuteFirst(begun, Reserve, []);
    ExecuteFirst(scheduled, Begin, [Reserve]);
    ExecuteFirst(Initial(total), Schedule(id, req), [Begin, Reserve]);
  }

  ghost predicate Schedules(events: seq<Event>, allowed: iset<TaskRequest>)
  {
    forall e :: e in events && e.Schedule? ==> e.req in allowed
  }

  /** Validation refuses a request only when both components are negative. Exactly these requests can be let in
      without ever making more free than there is: non-negative ones, and ones that never fit. */
  lemma FreeStaysWithinTotalIff(total: Resources, allowed: iset<TaskRequest>)
    requires total.Positive()
    ensures (forall events: seq<Event> :: Schedules(events, allowed) ==> Execute(Initial(total), events).free.AtMost(total))
       <==> (forall req :: req in allowed && ValidateTaskRequest(req).Valid? ==> Harmless(total, req.resources))
  {
    if forall req :: req in allowed && ValidateTaskRequest(req).Valid? ==> Harmless(total, req.resources) {
      forall events: seq<Event> | Schedules(events, allowed) ensures Execute(Initial(total), events).free.AtMost(total) {
        SchedulerRunsSafely(total, events);
      }
    } else {
      var req :| req in allowed && ValidateTaskRequest(req).Valid? && !Harmless(total, req.resources);
      var events := [Schedule(0, req), Begin, Reserve];
      LoneRequestIsGranted(total, 0, req);
      assert Schedules(events, allowed) && !Execute(Initial(total), events).free.AtMost(total);
    }
  }

  /** Such as one with components of different signs. */
  lemma MixedSignsInventResources(total: Resources, req: TaskRequest)
    requires total.Positive() && req == TaskRequest(Run, Resources(-5, 0), 0, 1, true, false)
    ensures ValidateTaskRequest(req) == Valid
    ensures Execute(Initial(total), [Schedule(0, req), Begin, Reserve]).free.cpu == total.cpu + 5
  {
    LoneRequestIsGranted(total, 0, req);
  }

  /** Whoever is recorded as running was granted what it holds. */
  lemma CandidatesHoldNonNegative(s: Sched, total: Resources, need: Task)
    requires Tracked(s) && Solvent(s, total)
    ensures AllNonNegative(Candidates(s, need))
  {
    forall id | id in s.tasks && IsCandidate(s.tasks[id], need) ensures s.tasks[id].req.resources.NonNegative() {
      assert InOnePlace(s, id) && RecordFits(s, id);
      PlacesExclude(s, id);
      assert Committed(s, id);
    }
  }

  /** In a solvent state the choice of victims is the best one: it kills exactly when killing can help, and no
      feasible set of candidates has a smaller maximum priority. */
  lemma ChoiceIsOptimal(s: Sched, total: Resources, order: seq<Victim>)
    requires Tracked(s) && Solvent(s, total) && Enabled(s, Choose(order))
    ensures var need, n := Need(s).req.resources, Step(s, Choose(order));
            && (n.phase.Killing? <==> exists other: set<Victim> :: other <= Candidates(s, Need(s)) && Feasible(s.free, need, other))
            && (!n.phase.Killing? ==> n == s.(phase := Denied(s.phase.id)))
            && (n.phase.Killing? ==>
                  forall other: set<Victim>, bound: int ::
                    other <= Candidates(s, Need(s)) && Feasible(s.free, need, other) && PrioritiesAtMost(other, bound) ==>
                      PrioritiesAtMost(SetOf(n.phase.victims), bound))
  {
    var need, all := Need(s).req.resources, Candidates(s, Need(s));
    CandidatesHoldNonNegative(s, total, Need(s));
    KillsIffFeasible(s.free, need, all, order);
    var victims := ChosenVictims(s.free, need, order);
    forall other: set<Victim>, bound: int |
      victims != [] && other <= all && Feasible(s.free, need, other) && PrioritiesAtMost(other, bound)
      ensures PrioritiesAtMost(SetOf(victims), bound)
    {
      SmallestMaximumPriority(s.free, need, all, order, other, bound);
    }
  }

  ghost predicate PrioritiesAtMost(victims: set<Victim>, bound: int)
  {
    forall v :: v in victims ==> v.priority <= bound
  }

  // ---- Callbacks and final states ----

  /** Both callbacks fire at most once, and completion is reported only for a process that was started. */
  lemma CallbacksAtMostOnce(s: Sched, id: TaskId)
    requires Tracked(s) && id in s.tasks
    ensures var t := s.tasks[id];
            && t.launchCalls <= 1 && t.completeCalls <= t.launchCalls
            && (t.completeCalls == 1 ==> t.req.execType == LongRunning && id in s.finished && id !in s.startFailed)
            && t.tries <= TryLimit(t)
  {
    assert InOnePlace(s, id) && RecordFits(s, id);
    PlacesExclude(s, id);
  }

  /** The completion callback fires only on a record that says running, which only a successful start writes. */
  lemma CompletionNeedsAStart(s: Sched, e: Event, id: TaskId)
    requires Tracked(s) && id in s.tasks
    ensures Step(s, e).tasks[id].completeCalls > s.tasks[id].completeCalls ==>
              s.tasks[id].state == Running && s.tasks[id].launchCalls == 1
    ensures Step(s, e).tasks[id].state == Running && s.tasks[id].state != Running ==> e == Start(id, true)
  {
    assert InOnePlace(s, id) && RecordFits(s, id);
    PlacesExclude(s, id);
  }

  lemma StepKeepsFinalState(s: Sched, e: Event, id: TaskId)
    requires Tracked(s) && id in s.tasks && s.tasks[id].state.Terminal()
    ensures id in Step(s, e).tasks && Step(s, e).tasks[id] == s.tasks[id]
  {
    assert InOnePlace(s, id) && RecordFits(s, id);
    PlacesExclude(s, id);
  }

  lemma {:induction false} FinalStateNeverChanges(s: Sched, events: seq<Event>, id: TaskId)
    requires Tracked(s) && id in s.tasks && s.tasks[id].state.Terminal()
    ensures id in Execute(s, events).tasks && Execute(s, events).tasks[id] == s.tasks[id]
    decreases |events|
  {
    if events != [] {
      StepKeepsTracked(s, events[0]);
      StepKeepsFinalState(s, events[0], id);
      FinalStateNeverChanges(Step(s, events[0]), events[1..], id);
    }
  }
}

/** Without new requests the scheduler runs out of steps: remaining tries are the measure. */
module SchedulerProgress {
  import opened Resource
  import opened Sums
  import opened SchedulerModel
  import opened SchedulerSafety

  /** How far a task is from being finished. */
  ghost function Rank(s: Sched, id: TaskId): int
    requires id in s.tasks
  {
    var t := s.tasks[id];
    20 * (TryLimit(t) - t.tries) +
    if Launching(s, id) then (if s.phase.Planning? then 18 else if s.phase.Killing? then 17 else 16)
    else if id in s.exec then (match s.exec[id] case Starting => 8 case Up => 6 case Over(_) => 3)
    else if id in s.finished then 0
    else if id in s.taskQueue then 9
    else 10
  }

  ghost function Ranks(s: Sched): map<TaskId, int> { map id | id in s.tasks :: Rank(s, id) }

  /** An upper bound on the steps still to come. */
  ghost function Work(s: Sched): int { Sum(Ranks(s)) + |s.release| }

  ghost function Moved(s: Sched, e: Event): TaskId
    requires Enabled(s, e) && !e.Schedule?
  {
    if e.Begin? then s.taskQueue[0] else if e.Wake? then s.waitQueue[e.position] else Touched(s, e)
  }

  lemma OthersKeepTheirRank(s: Sched, e: Event, j: TaskId)
    requires Enabled(s, e) && !e.Schedule? && j in s.tasks && j != Moved(s, e)
    requires Moved(s, e) in s.tasks
    ensures Step(s, e).tasks.Keys == s.tasks.Keys && Rank(Step(s, e), j) == Rank(s, j)
  {
    if e.Begin? || e.Wake? {
      OthersKeepTheirQueue(s, e, j);
    } else {
      assert Step(s, e).tasks.Keys == s.tasks.Keys;
    }
  }

  lemma OthersKeepTheirQueue(s: Sched, e: Event, j: TaskId)
    requires Enabled(s, e) && (e.Begin? || e.Wake?) && j in s.tasks && j != Moved(s, e)
    requires Moved(s, e) in s.tasks
    ensures Step(s, e).tasks.Keys == s.tasks.Keys && Rank(Step(s, e), j) == Rank(s, j)
  {
    var n := Step(s, e);
    assert n.tasks.Keys == s.tasks.Keys;
    if e.Begin? {
      assert s.taskQueue == [s.taskQueue[0]] + n.taskQueue;
    }
    assert j in n.taskQueue <==> j in s.taskQueue;
  }

  lemma MovedTaskAdvances(s: Sched, e: Event)
    requires Tracked(s) && Enabled(s, e) && !e.Schedule? && Moved(s, e) in s.tasks
    ensures Moved(s, e) in Step(s, e).tasks
    ensures Rank(Step(s, e), Moved(s, e)) + |Step(s, e).release| < Rank(s, Moved(s, e)) + |s.release|
  {
    var k := Moved(s, e);
    assert InOnePlace(s, k) && RecordFits(s, k);
    PlacesExclude(s, k);
    StepKeepsPlaces(s, e, k);
    PlacesExclude(Step(s, e), k);
    if e.Begin? || e.Wake? {
      QueuedTaskAdvances(s, e);
    }
  }

  lemma QueuedTaskAdvances(s: Sched, e: Event)
    requires Enabled(s, e) && (e.Begin? || e.Wake?) && Moved(s, e) in s.tasks
    requires InOnePlace(s, Moved(s, e)) && Separate(s, Moved(s, e)) && Separate(Step(s, e), Moved(s, e))
    ensures Rank(Step(s, e), Moved(s, e)) < Rank(s, Moved(s, e)) && Step(s, e).release == s.release
  {
    var k := Moved(s, e);
    if e.Begin? {
      assert k in s.taskQueue;
    } else {
      assert k in s.waitQueue;
      WaitingIsNotQueued(s, k);
      var q := s.taskQueue + [k];
      assert q[|s.taskQueue|] == k;
    }
  }

  lemma WaitingIsNotQueued(s: Sched, k: TaskId)
    requires InOnePlace(s, k) && k in s.waitQueue
    ensures k !in s.taskQueue
  {
    assert k in multiset(s.waitQueue);
    assert k in s.taskQueue ==> k in multiset(s.taskQueue);
  }

  lemma MovedIsKnown(s: Sched, e: Event)
    requires Tracked(s) && Enabled(s, e) && !e.Schedule?
    ensures Moved(s, e) in s.tasks
  {
    var k := Moved(s, e);
    assert InOnePlace(s, k);
    PlacesExclude(s, k);
  }

  lemma OneRankChanges(s: Sched, e: Event, k: TaskId)
    requires Enabled(s, e) && !e.Schedule? && k == Moved(s, e) && k in s.tasks && k in Step(s, e).tasks
    ensures Sum(Ranks(Step(s, e))) == Sum(Ranks(s)) - Rank(s, k) + Rank(Step(s, e), k)
  {
    var n := Step(s, e);
    assert n.tasks.Keys == s.tasks.Keys;
    var (r0, r1) := (Ranks(s), Ranks(n));
    forall j | j in s.tasks && j != k ensures r1[j] == r0[j] {
      OthersKeepTheirRank(s, e, j);
    }
    SumChangesAt(r0, r1, k);
  }

  lemma StepReducesWork(s: Sched, e: Event)
    requires Tracked(s) && Enabled(s, e) && !e.Schedule?
    ensures Work(Step(s, e)) < Work(s)
  {
    MovedIsKnown(s, e);
    MovedTaskAdvances(s, e);
    OneRankChanges(s, e, Moved(s, e));
  }

  lemma WorkNonNegative(s: Sched)
    requires Tracked(s)
    ensures 0 <= Work(s)
  {
    forall id | id in s.tasks ensures 0 <= Rank(s, id) {
      assert RecordFits(s, id);
    }
    SumNonNegative(Ranks(s));
  }

  /** Every event in the run does something, and none of them is a new request. */
  ghost predicate Busy(s: Sched, events: seq<Event>)
    decreases |events|
  {
    events == [] || (Enabled(s, events[0]) && !events[0].Schedule? && Busy(Step(s, events[0]), events[1..]))
  }

  lemma {:induction false} RunsOutOfSteps(s: Sched, events: seq<Event>)
    requires Tracked(s) && Busy(s, events)
    ensures |events| <= Work(s)
    decreases |events|
  {
    if events == [] {
      WorkNonNegative(s);
    } else {
      StepKeepsTracked(s, events[0]);
      StepReducesWork(s, events[0]);
      RunsOutOfSteps(Step(s, events[0]), events[1..]);
    }
  }
}
