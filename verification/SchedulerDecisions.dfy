/** What single steps of the scheduler decide, said about the records themselves: who is killed, who is put off, who
    has failed for good. */
module SchedulerDecisions {
  import opened Resource
  import opened KillPlan
  import opened Sorting
  import opened SchedulerModel
  import opened SchedulerSafety

  // ---- Who may be killed ----

  /** Records of running long tasks of a priority below the given one. */
  ghost predicate LowerRunning(s: Sched, priority: int, victims: set<Victim>)
  {
    forall v :: v in victims ==>
      && v.id in s.tasks
      && s.tasks[v.id].priority < priority
      && s.tasks[v.id].req.execType == LongRunning
      && s.tasks[v.id].state == Running
      && v == Victim(v.id, s.tasks[v.id].priority, s.tasks[v.id].launchTime, s.tasks[v.id].req.resources)
  }

  lemma LowerRunningAreCandidates(s: Sched, need: Task, victims: set<Victim>)
    ensures LowerRunning(s, need.priority, victims) <==> victims <= Candidates(s, need)
  {
    forall v | v in victims && LowerRunning(s, need.priority, victims) ensures v in Candidates(s, need) {
      assert v == VictimOf(v.id, s.tasks[v.id]) && IsCandidate(s.tasks[v.id], need);
    }
  }

  lemma {:induction false} ChosenAreListed(free: Resources, need: Resources, order: seq<Victim>, all: set<Victim>)
    requires Lists(order, all)
    ensures SetOf(ChosenVictims(free, need, order)) <= all
    ensures ChosenVictims(free, need, order) <= order
  {
  }

  /** Only running long tasks of a lower priority are ever killed, each at most once, with what its record says. */
  lemma VictimsAreLowerRunning(s: Sched, order: seq<Victim>)
    requires Enabled(s, Choose(order)) && Step(s, Choose(order)).phase.Killing?
    ensures var victims := Step(s, Choose(order)).phase.victims;
            && (forall v :: v in victims ==>
                  && v.id in s.tasks
                  && s.tasks[v.id].priority < s.tasks[s.phase.id].priority
                  && s.tasks[v.id].req.execType == LongRunning
                  && s.tasks[v.id].state == Running
                  && v.resources == s.tasks[v.id].req.resources)
            && (forall i, j :: 0 <= i < j < |victims| ==> victims[i].id != victims[j].id)
  {
    var all := Candidates(s, Need(s));
    var victims := Step(s, Choose(order)).phase.victims;
    ChosenAreListed(s.free, Need(s).req.resources, order, all);
    LowerRunningAreCandidates(s, Need(s), all);
    forall i, j | 0 <= i < j < |victims| ensures victims[i].id != victims[j].id {
      assert victims[i] == order[i] && victims[j] == order[j];
      assert order[i] in all && order[j] in all;
    }
  }

  /** Killing starts exactly when some set of such tasks holds enough, and otherwise the request is denied. */
  lemma KillsIffSomeWouldDo(s: Sched, total: Resources, order: seq<Victim>)
    requires Tracked(s) && Solvent(s, total) && Enabled(s, Choose(order))
    ensures var need, n := s.tasks[s.phase.id], Step(s, Choose(order));
            && (n.phase.Killing? <==>
                  exists victims: set<Victim> :: LowerRunning(s, need.priority, victims) && Feasible(s.free, need.req.resources, victims))
            && (!n.phase.Killing? ==> n == s.(phase := Denied(s.phase.id)))
  {
    var need, n := Need(s), Step(s, Choose(order));
    ChoiceIsOptimal(s, total, order);
    if n.phase.Killing? {
      var victims: set<Victim> :| victims <= Candidates(s, need) && Feasible(s.free, need.req.resources, victims);
      LowerRunningAreCandidates(s, need, victims);
    }
    if victims: set<Victim> :| LowerRunning(s, need.priority, victims) && Feasible(s.free, need.req.resources, victims) {
      LowerRunningAreCandidates(s, need, victims);
    }
  }

  /** Nobody is spared in favour of a victim: who runs at a lower priority than the request and is not killed has a
      higher priority than every victim, or the same and was not launched later. */
  lemma SparedOutrankVictims(s: Sched, order: seq<Victim>, v: Victim, spared: TaskId)
    requires Enabled(s, Choose(order)) && Step(s, Choose(order)).phase.Killing?
    requires v in Step(s, Choose(order)).phase.victims
    requires spared in s.tasks && s.tasks[spared].priority < s.tasks[s.phase.id].priority
    requires s.tasks[spared].req.execType == LongRunning && s.tasks[spared].state == Running
    requires forall w :: w in Step(s, Choose(order)).phase.victims ==> w.id != spared
    ensures v.id in s.tasks
    ensures || s.tasks[v.id].priority < s.tasks[spared].priority
            || (s.tasks[v.id].priority == s.tasks[spared].priority && s.tasks[spared].launchTime <= s.tasks[v.id].launchTime)
  {
    VictimsAreLowerRunning(s, order);
    var victims, w := Step(s, Choose(order)).phase.victims, VictimOf(spared, s.tasks[spared]);
    var all := Candidates(s, Need(s));
    ChosenAreListed(s.free, Need(s).req.resources, order, all);
    LowerRunningAreCandidates(s, Need(s), all);
    assert w in all && w in order;
    var i :| 0 <= i < |victims| && victims[i] == v;
    var j :| 0 <= j < |order| && order[j] == w;
    assert order[i] == v;
    assert forall k :: 0 <= k < |victims| ==> order[k] == victims[k] && order[k].id != spared;
    assert !DiesBefore(order[j], order[i]);
  }

  // ---- The steps of a launch ----

  /** The task that has waited longest is tried next, and the try is counted. */
  lemma BeginTakesTheFirst(s: Sched)
    requires Enabled(s, Begin) && s.taskQueue[0] in s.tasks
    ensures var id, n := s.taskQueue[0], Step(s, Begin);
            && n.phase == Planning(id) && s.taskQueue == [id] + n.taskQueue
            && n.tasks == s.tasks[id := s.tasks[id].(tries := s.tasks[id].tries + 1)]
            && n.free == s.free && n.release == s.release && n.waitQueue == s.waitQueue && n.exec == s.exec
  {
  }

  /** Once the victims were told, the request is granted exactly when it now fits. */
  lemma RecheckGrantsIff(s: Sched)
    requires Enabled(s, Recheck)
    ensures var need, n := s.tasks[s.phase.id].req.resources, Step(s, Recheck);
            && n.phase.id == s.phase.id && (n.phase.Granted? || n.phase.Denied?)
            && (n.phase.Granted? <==> need.cpu < s.free.cpu && need.memory < s.free.memory)
            && n.free.cpu == s.free.cpu - (if n.phase.Granted? then need.cpu else 0)
            && n.free.memory == s.free.memory - if n.phase.Granted? then need.memory else 0
  {
  }

  /** A granted task is handed to a goroutine that executes it, and its launch time is now. */
  lemma GrantedIsLaunched(s: Sched, now: int)
    requires Enabled(s, Finish(now)) && s.phase.Granted?
    ensures var id, n := s.phase.id, Step(s, Finish(now));
            && n == s.(phase := Idle, exec := s.exec[id := Starting], tasks := s.tasks[id := s.tasks[id].(launchTime := now)])
  {
  }

  /** A denied task has failed exactly when it has no try left; otherwise it waits, ten points more important. */
  lemma DeniedFailsIffOutOfTries(s: Sched, now: int)
    requires Tracked(s) && Enabled(s, Finish(now)) && s.phase.Denied?
    ensures var id, t, n := s.phase.id, s.tasks[s.phase.id], Step(s, Finish(now));
            && n.phase == Idle
            && (id in n.finished <==> t.req.retries <= t.tries)
            && (n.tasks[id].state == Failed <==> t.req.retries <= t.tries)
            && (id in n.waitQueue <==> t.tries < t.req.retries)
            && n.tasks[id].priority == t.priority + (if t.tries < t.req.retries then 10 else 0)
            && n.tasks[id].launchCalls == t.launchCalls + (if t.tries < t.req.retries then 0 else 1)
            && n.free == s.free && n.exec == s.exec && n.taskQueue == s.taskQueue
  {
    var id, n := s.phase.id, Step(s, Finish(now));
    assert InOnePlace(s, id) && RecordFits(s, id);
    PlacesExclude(s, id);
    if s.tasks[id].tries < s.tasks[id].req.retries {
      assert n.waitQueue[|s.waitQueue|] == id;
    }
  }

  /** A task of an unknown execution type can only fail. */
  lemma UnknownTypeFails(s: Sched, id: TaskId, report: ExitReport)
    requires Enabled(s, RunShort(id, report)) && s.tasks[id].req.execType == OtherType
    ensures var n := Step(Step(s, RunShort(id, report)), Close(id));
            n.tasks[id].state == Failed && id in n.finished && n.release == s.release + [s.tasks[id].req.resources]
  {
  }

  // ---- Giving up ----

  /** The task is never granted what it asks for along the run. */
  ghost predicate NeverGranted(s: Sched, events: seq<Event>, id: TaskId)
    decreases |events|
  {
    s.phase != Granted(id) && (events == [] || NeverGranted(Step(s, events[0]), events[1..], id))
  }

  ghost predicate FailedByTries(s: Sched, id: TaskId)
  {
    && id !in s.exec && id !in s.startFailed && s.phase != Granted(id)
    && (id in s.finished ==>
          id in s.tasks && s.tasks[id].tries == TryLimit(s.tasks[id]) && s.tasks[id].state == Failed && s.tasks[id].completeCalls == 0)
  }

  lemma StepKeepsFailedByTries(s: Sched, e: Event, id: TaskId)
    requires Tracked(s) && FailedByTries(s, id) && Step(s, e).phase != Granted(id)
    ensures FailedByTries(Step(s, e), id)
  {
    var n := Step(s, e);
    assert InOnePlace(s, id);
    PlacesExclude(s, id);
    if Enabled(s, e) && id in n.finished && id !in s.finished {
      assert e.Finish? && s.phase == Denied(id) && RecordFits(s, id);
    }
  }

  lemma {:induction false} RunKeepsFailedByTries(s: Sched, events: seq<Event>, id: TaskId)
    requires Tracked(s) && FailedByTries(s, id) && NeverGranted(s, events, id)
    ensures FailedByTries(Execute(s, events), id)
    decreases |events|
  {
    if events != [] {
      assert Step(s, events[0]).phase != Granted(id);
      StepKeepsTracked(s, events[0]);
      StepKeepsFailedByTries(s, events[0], id);
      RunKeepsFailedByTries(Step(s, events[0]), events[1..], id);
    }
  }

  /** A task that was never granted is given up only after exactly max(1, retries) tries, ten points of priority
      gained between each two of them. */
  lemma GivenUpAfterAllTries(total: Resources, events: seq<Event>, id: TaskId)
    requires total.Positive() && NeverGranted(Initial(total), events, id)
    ensures var s := Execute(Initial(total), events);
            id in s.tasks ==>
              var t := s.tasks[id];
              var limit := if t.req.retries < 1 then 1 else t.req.retries;
              && t.completeCalls == 0 && t.tries <= limit
              && (id in s.finished <==> t.state == Failed)
              && (id in s.finished ==>
                    t.tries == limit && t.priority == t.req.priority + 10 * (limit - 1) && t.launchCalls == 1)
              && (id in s.taskQueue || id in s.waitQueue ==> t.tries < limit && t.priority == t.req.priority + 10 * t.tries)
  {
    InitialIsSafe(total);
    RunKeepsTracked(Initial(total), events);
    RunKeepsFailedByTries(Initial(total), events, id);
    var s := Execute(Initial(total), events);
    assert InOnePlace(s, id);
    PlacesExclude(s, id);
    if id in s.tasks {
      assert RecordFits(s, id);
    }
  }
}
