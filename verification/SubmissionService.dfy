/** The manager's and the watchers' mail handlers, with the other goroutines running between their database calls. */
module SubmissionService {
  import opened Options
  import opened SubmissionTables
  import opened MergeUpdates
  import opened SubmissionStages
  import opened StagesMoveForward

  /** What the outside answers to one handler: whether each database call it makes goes through. */
  datatype Calls = Calls(insert: bool, read: bool, commit: bool, failRead: bool, failWrite: bool)

  ghost predicate ByOthers(events: seq<Event>, wid: WatcherId) { forall e :: e in events ==> !Actor(e, wid) }

  /** The watcher's own steps in the run are all from the script. */
  ghost predicate Follows(events: seq<Event>, wid: WatcherId, script: set<Event>)
  {
    forall e :: e in events && Actor(e, wid) ==> e in script
  }

  function FailureScript(wid: WatcherId, calls: Calls): set<Event>
  {
    {ReadForFailure(wid, calls.failRead), WriteFailure(wid, calls.failWrite)}
  }

  function ResultScript(wid: WatcherId, result: Option<CfResult>, calls: Calls): set<Event>
  {
    {ResultArrives(wid, result, calls.insert), CheckState(wid, calls.read), Commit(wid, calls.commit)}
    + FailureScript(wid, calls)
  }

  /** The insert meets a row with one of its keys. */
  predicate Duplicate(w: World, wid: WatcherId, result: Option<CfResult>, calls: Calls)
    requires wid in w.watchers
  {
    result.Some? && calls.insert && (result.value.cfSubId in w.tables.rows || HasRow(w.tables, w.watchers[wid].sub))
  }

  function AllButLast(events: seq<Event>): seq<Event> { if events == [] then [] else events[..|events| - 1] }

  /** A submission in the first state may be given the second. */
  predicate Admits(from: string, to: string) { !IsSink(from) && (IsFlux(to) ==> IsFlux(from)) }

  /** The write of a result: the verdict as state, a row with what was measured, and nothing else. */
  ghost predicate WroteResult(before: Tables, after: Tables, sub: SubId, r: CfResult)
  {
    && after.states.Keys == before.states.Keys + {sub}
    && after.rows.Keys == before.rows.Keys + {r.cfSubId}
    && after.states[sub] == r.verdict
    && after.rows[r.cfSubId].submissionId == sub && after.rows[r.cfSubId].time == r.time
    && after.rows[r.cfSubId].memory == r.memory && after.rows[r.cfSubId].passed == r.passed
    && (forall other :: other in before.states && other != sub ==> after.states[other] == before.states[other])
    && (forall c :: c in before.rows && c != r.cfSubId ==> after.rows[c] == before.rows[c])
  }

  /** The write of a failure: one state and nothing else. */
  ghost predicate WroteFailure(before: Tables, after: Tables, sub: SubId)
  {
    && after.states.Keys == before.states.Keys + {sub} && after.states[sub] == "flux_failed"
    && (forall other :: other in before.states && other != sub ==> after.states[other] == before.states[other])
    && after.rows == before.rows
  }

  lemma {:induction false} AppendedRun(w: World, a: seq<Event>, b: seq<Event>)
    ensures Run(w, a + b) == Run(Run(w, a), b)
    ensures 0 < |b| ==> Run(w, AllButLast(a + b)) == Run(Run(w, a), AllButLast(b))
  {
    RunAppend(w, a, b);
    if 0 < |b| {
      assert AllButLast(a + b) == a + AllButLast(b);
      RunAppend(w, a, AllButLast(b));
    }
  }

  lemma {:induction false} RunAppend(w: World, a: seq<Event>, b: seq<Event>)
    ensures Run(w, a + b) == Run(Run(w, a), b)
    decreases |a|
  {
    if a == [] {
      assert a + b == b;
    } else {
      assert (a + b)[1..] == a[1..] + b;
      RunAppend(Step(w, a[0]), a[1..], b);
    }
  }

  lemma {:induction false} RunExtend(w: World, a: seq<Event>, e: Event)
    ensures Run(w, a + [e]) == Step(Run(w, a), e)
  {
    RunAppend(w, a, [e]);
    assert [e][1..] == [];
  }

  /** Others cannot touch a watcher, nor take its submission away. */
  lemma {:induction false} OthersLeaveWatcher(w: World, events: seq<Event>, wid: WatcherId)
    requires wid in w.watchers && ByOthers(events, wid) && w.watchers[wid].sub in w.tables.states
    ensures var n := Run(w, events);
            wid in n.watchers && n.watchers[wid] == w.watchers[wid] && w.watchers[wid].sub in n.tables.states
    decreases |events|
  {
    if events != [] {
      var n := Step(w, events[0]);
      assert events[0] in events;
      OtherStepLeavesWatcher(w, events[0], wid);
      OthersLeaveWatcher(n, events[1..], wid);
    }
  }

  lemma {:induction false} OtherStepLeavesWatcher(w: World, e: Event, wid: WatcherId)
    requires wid in w.watchers && !Actor(e, wid) && w.watchers[wid].sub in w.tables.states
    ensures wid in Step(w, e).watchers && Step(w, e).watchers[wid] == w.watchers[wid]
    ensures w.watchers[wid].sub in Step(w, e).tables.states
  {
    if e.MonitorWrite? && Enabled(w, e) {
      ApplyKeepsSubmission(w.tables, Join(w.monitors[e.bot].http, w.monitors[e.bot].db), w.watchers[wid].sub);
    }
  }

  lemma {:induction false} EndMailsStay(w: World, events: seq<Event>)
    ensures w.endMails <= Run(w, events).endMails
    decreases |events|
  {
    if events != [] {
      EndMailsStay(Step(w, events[0]), events[1..]);
    }
  }

  lemma {:induction false} ApplyKeepsSubmission(t: Tables, updates: seq<Update>, s: SubId)
    requires s in t.states
    ensures s in Apply(t, updates).states
    decreases |updates|
  {
    if updates != [] {
      ApplyKeepsSubmission(ApplyOne(t, updates[0]), updates[1..], s);
    }
  }

  class Pipeline {
    var tables: Tables
    var watchers: map<WatcherId, Watcher>
    var registry: map<SubId, WatcherId>
    var endMails: set<SubId>
    var monitors: map<BotId, Snapshot>

    ghost function State(): World
      reads this
    {
      World(tables, watchers, registry, endMails, monitors)
    }

    constructor ()
      ensures State() == Start()
    {
      tables, watchers, registry, endMails, monitors := Tables(map[], map[]), map[], map[], {}, map[];
    }

    /** The other goroutines run here: any of their steps may have happened when control comes back. */
    method Elsewhere(wid: WatcherId) returns (ghost events: seq<Event>)
      modifies this
      ensures ByOthers(events, wid) && State() == Run(old(State()), events)
    {
      events := [];
    }

    // ---- The manager ----

    /** The watcher the submission is passed on to; a new one only when there is none. */
    method HandleSubmission(sub: SubId, newWatcher: WatcherId) returns (asked: WatcherId)
      requires sub in tables.states && (sub !in registry ==> newWatcher !in watchers)
      modifies this`watchers, this`registry
      ensures State() == Step(old(State()), Register(sub, newWatcher))
      ensures sub in registry && registry[sub] == asked
      ensures asked == if sub in old(registry) then old(registry)[sub] else newWatcher
      ensures sub in old(registry) ==> watchers == old(watchers) && registry == old(registry)
      ensures sub !in old(registry) ==>
                registry == old(registry)[sub := newWatcher] && watchers == old(watchers)[newWatcher := Watcher(sub, Waiting, false)]
    {
      if sub !in registry {
        watchers := watchers[newWatcher := Watcher(sub, Waiting, false)];
        registry := registry[sub := newWatcher];
      }
      asked := registry[sub];
    }

    method HandleCfSubResult(sub: SubId)
      requires sub in endMails
      modifies this`registry
      ensures State() == Step(old(State()), Forget(sub))
      ensures sub !in registry && forall other :: other != sub ==> (other in registry <==> other in old(registry))
      ensures forall other :: other in registry ==> registry[other] == old(registry)[other]
    {
      if sub !in registry {
        return;
      }
      registry := registry - {sub};
    }

    // ---- A watcher ----

    /** The check of `updateCfSubmissionState` on the state it has read. */
    method MayMove(from: string, to: string) returns (ok: bool)
      ensures ok <==> Stage(from) <= Stage(to) && Stage(from) < 2
    {
      if IsSink(from) {
        return false;
      }
      if from != FLUX_QUEUED && from != FLUX_FAILED && (to == FLUX_FAILED || to == FLUX_QUEUED) {
        return false;
      }
      ok := true;
    }

    /** The deferred update to flux_failed: read the state, and write if it may still be changed. */
    method UpdateSubStateToFailure(wid: WatcherId, calls: Calls) returns (ghost run: seq<Event>, ghost gap: seq<Event>)
      requires InPhase(State(), wid, MustFail) && watchers[wid].sub in tables.states
      modifies this
      ensures State() == Run(old(State()), run) && Follows(run, wid, FailureScript(wid, calls))
      ensures wid in watchers && watchers[wid].sub in tables.states
      ensures watchers[wid] == old(watchers)[wid].(phase := if old(watchers)[wid].ending then Ended else Waiting)
      ensures ByOthers(gap, wid) && gap + [ReadForFailure(wid, calls.failRead)] <= run
      ensures ReadForFailure(wid, calls.failRead) in run
      ensures var sub, read := old(watchers)[wid].sub, Run(old(State()), gap);
              && sub in read.tables.states
              && (WriteFailure(wid, true) in run <==> calls.failRead && calls.failWrite && IsFlux(read.tables.states[sub]))
      ensures WriteFailure(wid, true) in run ==>
                WroteFailure(Run(old(State()), AllButLast(run)).tables, tables, old(watchers)[wid].sub)
    {
      gap := Elsewhere(wid);
      run := gap;
      OthersLeaveWatcher(old(State()), run, wid);
      var wt := watchers[wid];
      ghost var before := State();
      var ok := false;
      if calls.failRead {
        ok := MayMove(tables.states[wt.sub], FLUX_FAILED);
      }
      var over := if wt.ending then Ended else Waiting;
      watchers := watchers[wid := wt.(phase := if ok then MayFail else over)];
      assert State() == Step(before, ReadForFailure(wid, calls.failRead));
      RunExtend(old(State()), run, ReadForFailure(wid, calls.failRead));
      run := run + [ReadForFailure(wid, calls.failRead)];
      if ok {
        ghost var more := WriteFailed(wid, over, calls);
        AppendedRun(old(State()), run, more);
        run := run + more;
      }
      assert run[|gap|] == ReadForFailure(wid, calls.failRead);
    }

    method WriteFailed(wid: WatcherId, over: Phase, calls: Calls) returns (ghost run: seq<Event>)
      requires InPhase(State(), wid, MayFail) && watchers[wid].sub in tables.states
      requires over == if watchers[wid].ending then Ended else Waiting
      modifies this
      ensures State() == Run(old(State()), run) && Follows(run, wid, {WriteFailure(wid, calls.failWrite)})
      ensures wid in watchers && watchers[wid].sub in tables.states
      ensures watchers[wid] == old(watchers)[wid].(phase := over)
      ensures 0 < |run| && (WriteFailure(wid, true) in run <==> calls.failWrite)
      ensures calls.failWrite ==> WroteFailure(Run(old(State()), AllButLast(run)).tables, tables, old(watchers)[wid].sub)
    {
      var wt := watchers[wid];
      ghost var others := Elsewhere(wid);
      OthersLeaveWatcher(old(State()), others, wid);
      ghost var toWrite := State();
      watchers := watchers[wid := wt.(phase := over)];
      if calls.failWrite {
        tables := tables.(states := tables.states[wt.sub := FLUX_FAILED]);
      }
      assert State() == Step(toWrite, WriteFailure(wid, calls.failWrite));
      RunExtend(old(State()), others, WriteFailure(wid, calls.failWrite));
      run := others + [WriteFailure(wid, calls.failWrite)];
      assert AllButLast(run) == others;
    }

    /** `asked`: the master was asked to submit. Ends the watch when the submission already has its row. */
    method CfSubmit(wid: WatcherId, readOk: bool, problemOk: bool, calls: Calls)
      returns (endWatch: bool, asked: bool, ghost run: seq<Event>)
      requires InPhase(State(), wid, Waiting) && !watchers[wid].ending && watchers[wid].sub in tables.states
      modifies this
      ensures State() == Run(old(State()), [Request(wid, readOk, problemOk)] + run)
      ensures Follows(run, wid, FailureScript(wid, calls))
      ensures wid in watchers && watchers[wid].phase == if endWatch then Ended else Waiting
      ensures endWatch <==> readOk && HasRow(old(tables), old(watchers)[wid].sub)
      ensures asked <==> readOk && problemOk && !endWatch
      ensures asked ==> run == [] && State() == old(State())
      ensures !asked ==> ReadForFailure(wid, calls.failRead) in run
      ensures endWatch ==> old(watchers)[wid].sub in endMails
    {
      var wt := watchers[wid];
      endWatch := readOk && HasRow(tables, wt.sub);
      asked := readOk && problemOk && !endWatch;
      run := [];
      if endWatch {
        endMails := endMails + {wt.sub};
      }
      if !asked {
        watchers := watchers[wid := wt.(phase := MustFail, ending := endWatch)];
      }
      RequestIs(old(State()), wid, readOk, problemOk, State());
      RunFirst(old(State()), Request(wid, readOk, problemOk), []);
      if !asked {
        ghost var gap;
        ghost var requested := State();
        run, gap := UpdateSubStateToFailure(wid, calls);
        EndMailsStay(requested, run);
        RunFirst(old(State()), Request(wid, readOk, problemOk), run);
      }
    }

    /** Insert the row, check and update the state, commit: the watch ends when that succeeds or when a row with
        one of the keys is there already; otherwise the state is set to failed if it still may. `gap`: what others do
        between the insert and the check. */
    method HandleSubResult(wid: WatcherId, result: Option<CfResult>, calls: Calls)
      returns (endWatch: bool, ghost run: seq<Event>, ghost gap: seq<Event>)
      requires InPhase(State(), wid, Waiting) && !watchers[wid].ending && watchers[wid].sub in tables.states
      requires result.Some? ==> !Blocked(State(), wid, result.value.cfSubId)
      modifies this
      ensures State() == Run(old(State()), [ResultArrives(wid, result, calls.insert)] + run)
      ensures Follows(run, wid, ResultScript(wid, result, calls))
      ensures wid in watchers && watchers[wid].phase == if endWatch then Ended else Waiting
      ensures endWatch <==> Duplicate(old(State()), wid, result, calls) || Commit(wid, true) in run
      ensures Commit(wid, true) in run ==> old(watchers)[wid].sub in endMails && HasRow(tables, old(watchers)[wid].sub)
      ensures ByOthers(gap, wid) && gap <= run
      ensures var sub, read := old(watchers)[wid].sub, Run(Step(old(State()), ResultArrives(wid, result, calls.insert)), gap);
              && sub in read.tables.states
              && (Commit(wid, true) in run <==>
                    && result.Some? && calls.insert && calls.read && calls.commit
                    && !Duplicate(old(State()), wid, result, calls)
                    && Admits(read.tables.states[sub], result.value.verdict))
      ensures Commit(wid, true) !in run ==> ReadForFailure(wid, calls.failRead) in run
      ensures Commit(wid, true) in run ==>
                && result.Some?
                && WroteResult(Run(Step(old(State()), ResultArrives(wid, result, calls.insert)), AllButLast(run)).tables, tables,
                               old(watchers)[wid].sub, result.value)
    {
      var inserted, duplicate := InsertResult(wid, result, calls);
      endWatch, run, gap := AfterInsert(wid, inserted, duplicate, calls);
      RunFirst(old(State()), ResultArrives(wid, result, calls.insert), run);
    }

    /** The insert inside the transaction, which fails on a row with one of the keys. */
    method InsertResult(wid: WatcherId, result: Option<CfResult>, calls: Calls) returns (inserted: bool, duplicate: bool)
      requires InPhase(State(), wid, Waiting) && !watchers[wid].ending
      requires result.Some? ==> !Blocked(State(), wid, result.value.cfSubId)
      modifies this`watchers
      ensures State() == Step(old(State()), ResultArrives(wid, result, calls.insert))
      ensures duplicate <==> Duplicate(old(State()), wid, result, calls)
      ensures inserted <==> result.Some? && calls.insert && !duplicate
      ensures wid in watchers && watchers[wid].sub == old(watchers)[wid].sub && watchers[wid].ending == duplicate
      ensures watchers[wid].phase == if inserted then Inserted(result.value) else MustFail
    {
      var wt := watchers[wid];
      inserted, duplicate := false, false;
      if result.Some? && calls.insert {
        duplicate := result.value.cfSubId in tables.rows || HasRow(tables, wt.sub);
        inserted := !duplicate;
      }
      if inserted {
        watchers := watchers[wid := wt.(phase := Inserted(result.value))];
      } else {
        watchers := watchers[wid := wt.(phase := MustFail, ending := duplicate)];
      }
    }

    /** What follows the insert: the rest of the transaction, and the deferred update unless it went through. */
    method AfterInsert(wid: WatcherId, inserted: bool, duplicate: bool, calls: Calls)
      returns (endWatch: bool, ghost run: seq<Event>, ghost gap: seq<Event>)
      requires wid in watchers && watchers[wid].sub in tables.states && watchers[wid].ending == duplicate
      requires !(inserted && duplicate)
      requires if inserted then watchers[wid].phase.Inserted? else watchers[wid].phase.MustFail?
      modifies this
      ensures State() == Run(old(State()), run)
      ensures Follows(run, wid, {CheckState(wid, calls.read), Commit(wid, calls.commit)} + FailureScript(wid, calls))
      ensures wid in watchers && watchers[wid].phase == if endWatch then Ended else Waiting
      ensures endWatch <==> duplicate || Commit(wid, true) in run
      ensures Commit(wid, true) in run ==> inserted
      ensures Commit(wid, true) !in run ==> ReadForFailure(wid, calls.failRead) in run
      ensures Commit(wid, true) in run ==> old(watchers)[wid].sub in endMails && HasRow(tables, old(watchers)[wid].sub)
      ensures ByOthers(gap, wid) && gap <= run
      ensures old(watchers)[wid].sub in Run(old(State()), gap).tables.states
      ensures inserted ==>
                (Commit(wid, true) in run <==>
                  calls.read && calls.commit
                  && Admits(Run(old(State()), gap).tables.states[old(watchers)[wid].sub], old(watchers)[wid].phase.result.verdict))
      ensures Commit(wid, true) in run ==>
                WroteResult(Run(old(State()), AllButLast(run)).tables, tables, old(watchers)[wid].sub, old(watchers)[wid].phase.result)
    {
      run, gap, endWatch := [], [], duplicate;
      if inserted {
        endWatch, run, gap := FinishTransaction(wid, calls);
      }
      if watchers[wid].phase == MustFail {
        ghost var more, readGap := UpdateSubStateToFailure(wid, calls);
        RunAppend(old(State()), run, more);
        run := run + more;
      }
    }

    /** The state is read outside the transaction that writes it. */
    method FinishTransaction(wid: WatcherId, calls: Calls)
      returns (committed: bool, ghost run: seq<Event>, ghost gap: seq<Event>)
      requires wid in watchers && watchers[wid].phase.Inserted? && !watchers[wid].ending && watchers[wid].sub in tables.states
      modifies this
      ensures State() == Run(old(State()), run)
      ensures Follows(run, wid, {CheckState(wid, calls.read), Commit(wid, calls.commit)})
      ensures wid in watchers && watchers[wid] == old(watchers)[wid].(phase := if committed then Ended else MustFail)
      ensures watchers[wid].sub in tables.states
      ensures committed <==> Commit(wid, true) in run
      ensures committed ==> HasRow(tables, watchers[wid].sub) && watchers[wid].sub in endMails
      ensures ByOthers(gap, wid) && gap + [CheckState(wid, calls.read)] <= run
      ensures var sub, read := old(watchers)[wid].sub, Run(old(State()), gap);
              && sub in read.tables.states
              && (committed <==> calls.read && calls.commit
                                 && Admits(read.tables.states[sub], old(watchers)[wid].phase.result.verdict))
      ensures committed ==>
                WroteResult(Run(old(State()), AllButLast(run)).tables, tables, old(watchers)[wid].sub, old(watchers)[wid].phase.result)
    {
      committed := false;
      gap := Elsewhere(wid);
      run := gap;
      OthersLeaveWatcher(old(State()), run, wid);
      ghost var before := State();
      var wt := watchers[wid];
      var r := wt.phase.result;
      var ok := false;
      if calls.read {
        ok := MayMove(tables.states[wt.sub], r.verdict);
      }
      watchers := watchers[wid := wt.(phase := if ok then Checked(r) else MustFail)];
      assert State() == Step(before, CheckState(wid, calls.read));
      RunExtend(old(State()), run, CheckState(wid, calls.read));
      run := run + [CheckState(wid, calls.read)];
      if ok {
        ghost var more;
        committed, more := CommitResult(wid, calls);
        AppendedRun(old(State()), run, more);
        run := run + more;
      }
    }

    method CommitResult(wid: WatcherId, calls: Calls) returns (committed: bool, ghost run: seq<Event>)
      requires wid in watchers && watchers[wid].phase.Checked? && watchers[wid].sub in tables.states
      modifies this
      ensures State() == Run(old(State()), run) && Follows(run, wid, {Commit(wid, calls.commit)})
      ensures wid in watchers && watchers[wid] == old(watchers)[wid].(phase := if committed then Ended else MustFail)
      ensures watchers[wid].sub in tables.states
      ensures committed <==> Commit(wid, true) in run
      ensures committed <==> calls.commit
      ensures committed ==> HasRow(tables, watchers[wid].sub) && watchers[wid].sub in endMails
      ensures 0 < |run|
      ensures committed ==>
                WroteResult(Run(old(State()), AllButLast(run)).tables, tables, old(watchers)[wid].sub, old(watchers)[wid].phase.result)
    {
      var wt := watchers[wid];
      ghost var others := Elsewhere(wid);
      OthersLeaveWatcher(old(State()), others, wid);
      ghost var toCommit := State();
      committed := calls.commit;
      if committed {
        tables := Committed(tables, wt.sub, wt.phase.result);
        endMails := endMails + {wt.sub};
        assert tables.rows[wt.phase.result.cfSubId].submissionId == wt.sub;
      }
      watchers := watchers[wid := wt.(phase := if committed then Ended else MustFail)];
      assert State() == Step(toCommit, Commit(wid, calls.commit));
      RunExtend(old(State()), others, Commit(wid, calls.commit));
      run := others + [Commit(wid, calls.commit)];
      assert AllButLast(run) == others;
    }
  }

  lemma {:induction false} RunFirst(w: World, e: Event, rest: seq<Event>)
    ensures Run(w, [e] + rest) == Run(Step(w, e), rest)
  {
    assert ([e] + rest)[1..] == rest;
  }

  lemma RequestIs(w: World, wid: WatcherId, readOk: bool, problemOk: bool, n: World)
    requires InPhase(w, wid, Waiting) && !w.watchers[wid].ending
    requires var wt := w.watchers[wid];
             var endWatch := readOk && HasRow(w.tables, wt.sub);
             n == if readOk && problemOk && !endWatch then w else
               w.(endMails := if endWatch then w.endMails + {wt.sub} else w.endMails,
                  watchers := w.watchers[wid := wt.(phase := MustFail, ending := endWatch)])
    ensures n == Step(w, Request(wid, readOk, problemOk))
  {
  }

  // ---- Attempts in the tables as they really are ----

  ghost predicate AllTrusted(events: seq<Event>, owner: CfId -> BotId) { forall e :: e in events ==> Trusted(e, owner) }

  lemma {:induction false} UncommittedIsFlux(w: World, wid: WatcherId, owner: CfId -> BotId)
    requires Sound(w, owner) && wid in w.watchers && w.watchers[wid].phase.Inserted?
    ensures w.watchers[wid].sub in w.tables.states && IsFlux(w.tables.states[w.watchers[wid].sub])
  {
    assert WatcherFits(w, wid);
  }

  /** While a watcher's row waits for its commit, the state of the submission is still a flux state, so the check lets
      any verdict pass: a result that is no duplicate is recorded as soon as no call fails. */
  lemma {:induction false} NewResultsAreAdmitted(w: World, gap: seq<Event>, wid: WatcherId, owner: CfId -> BotId)
    requires Sound(w, owner) && AllTrusted(gap, owner) && ByOthers(gap, wid)
    requires wid in w.watchers && w.watchers[wid].phase.Inserted?
    ensures var sub, read := w.watchers[wid].sub, Run(w, gap);
            sub in read.tables.states && Admits(read.tables.states[sub], w.watchers[wid].phase.result.verdict)
  {
    var read := Run(w, gap);
    assert wid in read.watchers && read.watchers[wid] == w.watchers[wid] by {
      UncommittedIsFlux(w, wid, owner);
      OthersLeaveWatcher(w, gap, wid);
    }
    assert w.watchers[wid].sub in read.tables.states && IsFlux(read.tables.states[w.watchers[wid].sub]) by {
      RunStaysSound(w, gap, owner);
      UncommittedIsFlux(read, wid, owner);
    }
  }

  lemma {:induction false} RunStaysSound(w: World, events: seq<Event>, owner: CfId -> BotId)
    requires Sound(w, owner) && AllTrusted(events, owner)
    ensures Sound(Run(w, events), owner)
  {
    StagesAreOneWay(w, events, owner);
  }

  lemma {:induction false} RowsStay(w: World, events: seq<Event>, owner: CfId -> BotId, sub: SubId)
    requires Sound(w, owner) && AllTrusted(events, owner) && HasRow(w.tables, sub)
    ensures HasRow(Run(w, events).tables, sub)
    decreases |events|
  {
    if events != [] {
      assert events[0] in events;
      TablesAdvance(w, events[0], owner);
      StepKeepsSound(w, events[0], owner);
      RowsStay(Step(w, events[0]), events[1..], owner, sub);
    }
  }

  /** A submission that still has no row when the deferred update is over was in a flux state when the update read it,
      so the update has set it to failed as soon as no call failed. */
  lemma {:induction false} FailedAttemptsAreRecorded(w: World, gap: seq<Event>, rest: seq<Event>, wid: WatcherId,
                                                    owner: CfId -> BotId)
    requires Sound(w, owner) && AllTrusted(gap + rest, owner) && ByOthers(gap, wid)
    requires InPhase(w, wid, MustFail) && !HasRow(Run(w, gap + rest).tables, w.watchers[wid].sub)
    ensures var sub, read := w.watchers[wid].sub, Run(w, gap);
            sub in read.tables.states && IsFlux(read.tables.states[sub])
  {
    assert WatcherFits(w, wid);
    OthersLeaveWatcher(w, gap, wid);
    assert AllTrusted(gap, owner) && AllTrusted(rest, owner);
    StagesAreOneWay(w, gap, owner);
    RunAppend(w, gap, rest);
    var read := Run(w, gap);
    if HasRow(read.tables, w.watchers[wid].sub) {
      RowsStay(read, rest, owner, w.watchers[wid].sub);
    }
  }

  /** A new submission waits in the queue state. */
  lemma SubmittedIsQueued(w: World, s: SubId)
    requires s !in w.tables.states
    ensures Step(w, Submit(s)).tables.states == w.tables.states[s := "flux_queued"]
    ensures Step(w, Submit(s)).tables.rows == w.tables.rows
  {
  }
}
