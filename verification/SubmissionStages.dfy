/** Watchers, the manager and the bot monitors working on the submission tables at the same time. Reads and writes
    that the source makes separately are separate steps here; a transaction becomes visible when it commits, and
    its uncommitted insert keeps others from inserting the same keys. */
module SubmissionStages {
  import opened Options
  import opened SubmissionTables
  import opened MergeUpdates

  type WatcherId = nat
  type BotId = nat

  datatype CfResult = CfResult(cfSubId: CfId, verdict: string, time: int, memory: int, passed: int)

  datatype Phase =
    | Waiting                        // in the mailbox loop
    | Inserted(result: CfResult)     // transaction open, row inserted
    | Checked(result: CfResult)      // state check passed and state updated inside the transaction
    | MustFail                       // deferred update to failure: state not read yet
    | MayFail                        // state read and found to be a flux state
    | Ended

  /** `ending`: the watch ends once the deferred update is over. */
  datatype Watcher = Watcher(sub: SubId, phase: Phase, ending: bool)

  datatype Snapshot = Snapshot(http: seq<CfStatus>, db: seq<DbEntry>)

  datatype World = World(
    tables: Tables,
    watchers: map<WatcherId, Watcher>,
    registry: map<SubId, WatcherId>,
    endMails: set<SubId>,
    monitors: map<BotId, Snapshot>)

  datatype Event =
    | Submit(sub: SubId)
    | Register(sub: SubId, watcher: WatcherId)
    | Forget(sub: SubId)
    | Request(watcher: WatcherId, readOk: bool, problemOk: bool)
    | ResultArrives(watcher: WatcherId, result: Option<CfResult>, dbOk: bool)
    | CheckState(watcher: WatcherId, readOk: bool)
    | Commit(watcher: WatcherId, ok: bool)
    | ReadForFailure(watcher: WatcherId, readOk: bool)
    | WriteFailure(watcher: WatcherId, ok: bool)
    | MonitorRead(bot: BotId, http: seq<CfStatus>, db: seq<DbEntry>)
    | MonitorWrite(bot: BotId, ok: bool)

  predicate HasRow(t: Tables, s: SubId)
  {
    exists c :: c in t.rows && t.rows[c].submissionId == s
  }

  predicate InTransaction(p: Phase) { p.Inserted? || p.Checked? }

  /** Another transaction has inserted one of these keys and not ended yet: an insert would wait for it. */
  ghost predicate Blocked(w: World, wid: WatcherId, cf: CfId)
  {
    wid in w.watchers &&
    exists other ::
      && other in w.watchers && other != wid && InTransaction(w.watchers[other].phase)
      && (w.watchers[other].phase.result.cfSubId == cf || w.watchers[other].sub == w.watchers[wid].sub)
  }

  ghost predicate InPhase(w: World, wid: WatcherId, p: Phase) { wid in w.watchers && w.watchers[wid].phase == p }

  ghost predicate Enabled(w: World, e: Event)
  {
    match e
    case Submit(s) => s !in w.tables.states
    case Register(s, wid) => s in w.tables.states && s !in w.registry && wid !in w.watchers
    case Forget(s) => s in w.endMails && s in w.registry
    case Request(wid, _, _) => InPhase(w, wid, Waiting)
    case ResultArrives(wid, result, _) => InPhase(w, wid, Waiting) && (result.Some? ==> !Blocked(w, wid, result.value.cfSubId))
    case CheckState(wid, _) => wid in w.watchers && w.watchers[wid].phase.Inserted? && w.watchers[wid].sub in w.tables.states
    case Commit(wid, _) => wid in w.watchers && w.watchers[wid].phase.Checked?
    case ReadForFailure(wid, _) => InPhase(w, wid, MustFail) && w.watchers[wid].sub in w.tables.states
    case WriteFailure(wid, _) => InPhase(w, wid, MayFail)
    case MonitorRead(bot, http, db) => bot !in w.monitors && HttpAscending(http) && BulkListing(w.tables, db)
    case MonitorWrite(bot, _) => bot in w.monitors
  }

  function WithPhase(w: World, wid: WatcherId, p: Phase): World
    requires wid in w.watchers
  {
    w.(watchers := w.watchers[wid := w.watchers[wid].(phase := p)])
  }

  /** The deferred update is over. */
  function AfterFailure(w: World, wid: WatcherId): World
    requires wid in w.watchers
  {
    WithPhase(w, wid, if w.watchers[wid].ending then Ended else Waiting)
  }

  function FailAndEnd(w: World, wid: WatcherId): World
    requires wid in w.watchers
  {
    w.(watchers := w.watchers[wid := w.watchers[wid].(phase := MustFail, ending := true)])
  }

  function Committed(t: Tables, s: SubId, r: CfResult): Tables
  {
    Tables(t.states[s := r.verdict], t.rows[r.cfSubId := CfRow(s, r.time, r.memory, r.passed)])
  }

  ghost function Step(w: World, e: Event): World
  {
    if !Enabled(w, e) then w else
      match e
      case Submit(s) => w.(tables := w.tables.(states := w.tables.states[s := FLUX_QUEUED]))
      case Register(s, wid) =>
        w.(watchers := w.watchers[wid := Watcher(s, Waiting, false)], registry := w.registry[s := wid])
      case Forget(s) => w.(registry := w.registry - {s})
      case Request(wid, readOk, problemOk) =>
        if !readOk then WithPhase(w, wid, MustFail)
        else if HasRow(w.tables, w.watchers[wid].sub) then
          FailAndEnd(w.(endMails := w.endMails + {w.watchers[wid].sub}), wid)
        else if !problemOk then WithPhase(w, wid, MustFail)
        else w
      case ResultArrives(wid, result, dbOk) =>
        if result.None? || !dbOk then WithPhase(w, wid, MustFail)
        else if result.value.cfSubId in w.tables.rows || HasRow(w.tables, w.watchers[wid].sub) then FailAndEnd(w, wid)
        else WithPhase(w, wid, Inserted(result.value))
      case CheckState(wid, readOk) =>
        var state, r := w.tables.states[w.watchers[wid].sub], w.watchers[wid].phase.result;
        if !readOk || IsSink(state) || (!IsFlux(state) && IsFlux(r.verdict)) then WithPhase(w, wid, MustFail)
        else WithPhase(w, wid, Checked(r))
      case Commit(wid, ok) =>
        var wt := w.watchers[wid];
        if !ok then WithPhase(w, wid, MustFail)
        else WithPhase(w, wid, Ended).(tables := Committed(w.tables, wt.sub, wt.phase.result),
                                       endMails := w.endMails + {wt.sub})
      case ReadForFailure(wid, readOk) =>
        if readOk && IsFlux(w.tables.states[w.watchers[wid].sub]) then WithPhase(w, wid, MayFail) else AfterFailure(w, wid)
      case WriteFailure(wid, ok) =>
        var done := AfterFailure(w, wid);
        if ok then done.(tables := w.tables.(states := w.tables.states[w.watchers[wid].sub := FLUX_FAILED])) else done
      case MonitorRead(bot, http, db) => w.(monitors := w.monitors[bot := Snapshot(http, db)])
      case MonitorWrite(bot, ok) =>
        var snap := w.monitors[bot];
        var rest := w.(monitors := w.monitors - {bot});
        if ok then rest.(tables := Apply(w.tables, Join(snap.http, snap.db))) else rest
  }

  ghost function Run(w: World, events: seq<Event>): World
    decreases |events|
  {
    if events == [] then w else Run(Step(w, events[0]), events[1..])
  }

  function Start(): World { World(Tables(map[], map[]), map[], map[], {}, map[]) }

  /** (flux_queued, flux_failed) -> not sink -> sink. */
  function Stage(state: string): nat { if IsFlux(state) then 0 else if IsSink(state) then 2 else 1 }

  /** What the outside is trusted with: verdicts are never flux states, and the query for a bot's handle returns
      only submissions made with that bot. */
  ghost predicate Trusted(e: Event, owner: CfId -> BotId)
  {
    match e
    case ResultArrives(_, result, _) => result.Some? ==> !IsFlux(result.value.verdict)
    case MonitorRead(bot, http, _) => forall h :: h in http ==> !IsFlux(h.verdict) && owner(h.cfSubId) == bot
    case _ => true
  }
}

/** Stages only move forward, whatever the interleaving. */
module StagesMoveForward {
  import opened Options
  import opened SubmissionTables
  import opened MergeUpdates
  import opened SubmissionStages

  /** A submission has left the flux states exactly when it has a Codeforces row. */
  ghost predicate RowIffOut(t: Tables)
  {
    forall s :: s in t.states ==> (HasRow(t, s) <==> !IsFlux(t.states[s]))
  }

  ghost predicate WatcherFits(w: World, wid: WatcherId)
    requires wid in w.watchers
  {
    var wt := w.watchers[wid];
    && wt.sub in w.tables.states
    && (wt.phase == Ended || (wt.sub in w.registry && w.registry[wt.sub] == wid) || HasRow(w.tables, wt.sub))
    && (InTransaction(wt.phase) ==>
          !HasRow(w.tables, wt.sub) && wt.phase.result.cfSubId !in w.tables.rows && !IsFlux(wt.phase.result.verdict))
    && (wt.phase == MayFail ==> !HasRow(w.tables, wt.sub))
  }

  ghost predicate TransactionsApart(w: World)
  {
    forall a, b ::
      (a in w.watchers && b in w.watchers && a != b && InTransaction(w.watchers[a].phase) && InTransaction(w.watchers[b].phase))
      ==> w.watchers[a].phase.result.cfSubId != w.watchers[b].phase.result.cfSubId
  }

  /** The bot's own rows still are as the monitor read them. */
  ghost predicate SnapshotFits(w: World, bot: BotId, owner: CfId -> BotId)
    requires bot in w.monitors
  {
    var snap := w.monitors[bot];
    && HttpAscending(snap.http) && DbAscending(snap.db)
    && (forall h :: h in snap.http ==> !IsFlux(h.verdict) && owner(h.cfSubId) == bot)
    && (forall e :: e in snap.db && owner(e.status.cfSubId) == bot ==> StillAsRead(w.tables, e))
  }

  ghost predicate StillAsRead(t: Tables, e: DbEntry)
  {
    && e.status.cfSubId in t.rows && t.rows[e.status.cfSubId].submissionId == e.submissionId
    && e.submissionId in t.states && !IsFlux(t.states[e.submissionId]) && !IsSink(t.states[e.submissionId])
  }

  ghost predicate Sound(w: World, owner: CfId -> BotId)
  {
    && Consistent(w.tables) && RowIffOut(w.tables)
    && (forall s :: s in w.endMails ==> HasRow(w.tables, s))
    && (forall wid :: wid in w.watchers ==> WatcherFits(w, wid))
    && TransactionsApart(w)
    && (forall bot :: bot in w.monitors ==> SnapshotFits(w, bot, owner))
  }

  /** Every submission present stays present and its stage does not drop. */
  ghost predicate Forward(t: Tables, n: Tables)
  {
    forall s :: s in t.states ==> s in n.states && Stage(t.states[s]) <= Stage(n.states[s])
  }

  /** Rows are never lost or moved to another submission. */
  ghost predicate RowsKept(t: Tables, n: Tables)
  {
    forall c :: c in t.rows ==> c in n.rows && n.rows[c].submissionId == t.rows[c].submissionId
  }

  // ---- The four steps that write tables ----

  lemma {:induction false} CommitTables(t: Tables, s: SubId, r: CfResult)
    requires Consistent(t) && RowIffOut(t) && s in t.states && !HasRow(t, s) && r.cfSubId !in t.rows && !IsFlux(r.verdict)
    ensures var n := Committed(t, s, r);
            && Consistent(n) && RowIffOut(n) && Forward(t, n) && RowsKept(t, n)
            && forall u :: HasRow(n, u) <==> HasRow(t, u) || u == s
  {
    var n := Committed(t, s, r);
    assert n.rows[r.cfSubId].submissionId == s;
    forall u ensures HasRow(n, u) <==> HasRow(t, u) || u == s {
      if HasRow(t, u) {
        var c :| c in t.rows && t.rows[c].submissionId == u;
        assert n.rows[c].submissionId == u;
      }
    }
  }

  lemma {:induction false} StateTables(t: Tables, s: SubId, state: string)
    requires Consistent(t) && RowIffOut(t) && !HasRow(t, s) && IsFlux(state)
    ensures var n := t.(states := t.states[s := state]);
            && Consistent(n) && RowIffOut(n) && Forward(t, n) && RowsKept(t, n)
            && forall u :: HasRow(n, u) <==> HasRow(t, u)
  {
    var n := t.(states := t.states[s := state]);
    forall u ensures HasRow(n, u) <==> HasRow(t, u) {
      assert n.rows == t.rows;
    }
  }

  /** Every update of a monitor's transaction is for a row of its own that is still open. */
  lemma {:induction false} UpdateIsOwn(w: World, bot: BotId, owner: CfId -> BotId, u: Update)
    requires bot in w.monitors && SnapshotFits(w, bot, owner)
    requires u in Join(w.monitors[bot].http, w.monitors[bot].db)
    ensures u.cfId in w.tables.rows && w.tables.rows[u.cfId].submissionId == u.submissionId
    ensures owner(u.cfId) == bot && !IsFlux(u.state)
    ensures u.submissionId in w.tables.states && Stage(w.tables.states[u.submissionId]) == 1
  {
    JoinExact(w.monitors[bot].http, w.monitors[bot].db, u);
  }

  lemma {:induction false} MonitorTables(w: World, bot: BotId, owner: CfId -> BotId)
    requires Consistent(w.tables) && RowIffOut(w.tables) && bot in w.monitors && SnapshotFits(w, bot, owner)
    ensures var t, n := w.tables, Apply(w.tables, Join(w.monitors[bot].http, w.monitors[bot].db));
            && Consistent(n) && RowIffOut(n) && Forward(t, n) && RowsKept(t, n)
            && n.rows.Keys == t.rows.Keys && n.states.Keys == t.states.Keys
            && (forall u :: HasRow(n, u) <==> HasRow(t, u))
            && (forall c :: c in t.rows && owner(c) != bot ==>
                  n.states[t.rows[c].submissionId] == t.states[t.rows[c].submissionId])
  {
    var t := w.tables;
    var updates := Join(w.monitors[bot].http, w.monitors[bot].db);
    var n := Apply(t, updates);
    OwnTargets(w, bot, owner);
    ApplyKeepsShape(t, updates);
    forall u ensures HasRow(n, u) <==> HasRow(t, u) {
      if HasRow(t, u) {
        var c :| c in t.rows && t.rows[c].submissionId == u;
        assert n.rows[c].submissionId == u;
      }
    }
    forall s | s in t.states
      ensures n.states[s] == t.states[s] || (Stage(t.states[s]) == 1 && !IsFlux(n.states[s]))
    {
      MonitorWritesState(w, bot, owner, s);
    }
    forall c | c in t.rows && owner(c) != bot
      ensures n.states[t.rows[c].submissionId] == t.states[t.rows[c].submissionId]
    {
      forall u | u in updates ensures u.submissionId != t.rows[c].submissionId {
        UpdateIsOwn(w, bot, owner, u);
      }
      ApplyLeavesState(t, updates, t.rows[c].submissionId);
    }
  }

  lemma {:induction false} OwnTargets(w: World, bot: BotId, owner: CfId -> BotId)
    requires Consistent(w.tables) && bot in w.monitors && SnapshotFits(w, bot, owner)
    ensures Targets(w.tables, Join(w.monitors[bot].http, w.monitors[bot].db))
  {
    var updates := Join(w.monitors[bot].http, w.monitors[bot].db);
    JoinAscending(w.monitors[bot].http, w.monitors[bot].db);
    forall u | u in updates ensures u.cfId in w.tables.rows && w.tables.rows[u.cfId].submissionId == u.submissionId {
      UpdateIsOwn(w, bot, owner, u);
    }
  }

  lemma {:induction false} MonitorWritesState(w: World, bot: BotId, owner: CfId -> BotId, s: SubId)
    requires Consistent(w.tables) && bot in w.monitors && SnapshotFits(w, bot, owner) && s in w.tables.states
    ensures var t, n := w.tables, Apply(w.tables, Join(w.monitors[bot].http, w.monitors[bot].db));
            && s in n.states
            && (n.states[s] == t.states[s] || (Stage(t.states[s]) == 1 && !IsFlux(n.states[s])))
  {
    var t, updates := w.tables, Join(w.monitors[bot].http, w.monitors[bot].db);
    OwnTargets(w, bot, owner);
    ApplyKeepsShape(t, updates);
    if k :| 0 <= k < |updates| && updates[k].submissionId == s {
      UpdateIsOwn(w, bot, owner, updates[k]);
      ApplyWritesRow(t, updates, k);
    } else {
      ApplyLeavesState(t, updates, s);
    }
  }

  // ---- One step ----

  /** The row a step adds, if any. */
  ghost predicate Adds(w: World, e: Event, s: SubId, c: CfId)
  {
    && e.Commit? && e.ok && Enabled(w, e)
    && w.watchers[e.watcher].sub == s && w.watchers[e.watcher].phase.result.cfSubId == c
  }

  lemma {:induction false} TablesAdvance(w: World, e: Event, owner: CfId -> BotId)
    requires Sound(w, owner)
    ensures var t, n := w.tables, Step(w, e).tables;
            && Consistent(n) && RowIffOut(n) && Forward(t, n) && RowsKept(t, n)
            && (forall u :: HasRow(t, u) ==> HasRow(n, u))
            && (forall u :: HasRow(n, u) && !HasRow(t, u) ==> exists c :: Adds(w, e, u, c))
            && (forall c :: c in n.rows && c !in t.rows ==> Adds(w, e, n.rows[c].submissionId, c))
  {
    if Enabled(w, e) {
      if e.Commit? && e.ok {
        var wt := w.watchers[e.watcher];
        CommitTables(w.tables, wt.sub, wt.phase.result);
        assert Adds(w, e, wt.sub, wt.phase.result.cfSubId);
      } else if e.Submit? {
        NewSubmissionHasNoRow(w.tables, e.sub);
        StateTables(w.tables, e.sub, FLUX_QUEUED);
      } else if e.WriteFailure? && e.ok {
        StateTables(w.tables, w.watchers[e.watcher].sub, FLUX_FAILED);
      } else if e.MonitorWrite? && e.ok {
        MonitorTables(w, e.bot, owner);
      }
    }
  }

  lemma NewSubmissionHasNoRow(t: Tables, s: SubId)
    requires Consistent(t) && s !in t.states
    ensures !HasRow(t, s)
  {
  }

  /** Two live watchers of a submission without a row are the same one. */
  lemma {:induction false} SingleWatcher(w: World, a: WatcherId, b: WatcherId)
    requires a in w.watchers && b in w.watchers && WatcherFits(w, a) && WatcherFits(w, b)
    requires w.watchers[a].sub == w.watchers[b].sub && !HasRow(w.tables, w.watchers[a].sub)
    requires w.watchers[a].phase != Ended && w.watchers[b].phase != Ended
    ensures a == b
  {
  }

  /** What one watcher needs to know about the tables after a step. */
  ghost predicate TablesAround(w: World, e: Event, wid: WatcherId)
    requires wid in w.watchers
  {
    var t, n, wt := w.tables, Step(w, e).tables, w.watchers[wid];
    && (wt.sub in t.states ==> wt.sub in n.states)
    && (HasRow(t, wt.sub) ==> HasRow(n, wt.sub))
    && (HasRow(n, wt.sub) && !HasRow(t, wt.sub) ==> exists c :: Adds(w, e, wt.sub, c))
    && (InTransaction(wt.phase) && wt.phase.result.cfSubId in n.rows && wt.phase.result.cfSubId !in t.rows ==>
          exists s :: Adds(w, e, s, wt.phase.result.cfSubId))
  }

  lemma {:induction false} AdvanceAround(w: World, e: Event, owner: CfId -> BotId, wid: WatcherId)
    requires Sound(w, owner) && wid in w.watchers
    ensures TablesAround(w, e, wid)
  {
    TablesAdvance(w, e, owner);
  }

  lemma {:induction false} WatcherStaysFit(w: World, e: Event, owner: CfId -> BotId, wid: WatcherId)
    requires Sound(w, owner) && Trusted(e, owner) && wid in Step(w, e).watchers
    ensures WatcherFits(Step(w, e), wid)
  {
    if Enabled(w, e) {
      if wid !in w.watchers {
        assert e.Register?;
      } else {
        AdvanceAround(w, e, owner, wid);
        if Actor(e, wid) {
          ActorStaysFit(w, e, owner, wid);
        } else {
          BystanderStaysFit(w, e, wid);
        }
      }
    }
  }

  predicate Actor(e: Event, wid: WatcherId)
  {
    (e.Request? || e.ResultArrives? || e.CheckState? || e.Commit? || e.ReadForFailure? || e.WriteFailure?) && e.watcher == wid
  }

  lemma {:induction false} ActorStaysFit(w: World, e: Event, owner: CfId -> BotId, wid: WatcherId)
    requires Trusted(e, owner) && Enabled(w, e) && Actor(e, wid)
    requires WatcherFits(w, wid) && RowIffOut(w.tables) && TablesAround(w, e, wid)
    ensures WatcherFits(Step(w, e), wid)
  {
    if e.ResultArrives? || e.CheckState? || e.Commit? {
      TransactionStaysFit(w, e, owner, wid);
    } else {
      FailureStaysFit(w, e, wid);
    }
  }

  lemma {:induction false} TransactionStaysFit(w: World, e: Event, owner: CfId -> BotId, wid: WatcherId)
    requires Trusted(e, owner) && Enabled(w, e) && Actor(e, wid) && (e.ResultArrives? || e.CheckState? || e.Commit?)
    requires WatcherFits(w, wid) && TablesAround(w, e, wid)
    ensures WatcherFits(Step(w, e), wid)
  {
    var n := Step(w, e);
    if n.watchers[wid].phase != Ended {
      assert n.tables == w.tables;
    }
  }

  lemma {:induction false} FailureStaysFit(w: World, e: Event, wid: WatcherId)
    requires Enabled(w, e) && Actor(e, wid) && (e.Request? || e.ReadForFailure? || e.WriteFailure?)
    requires WatcherFits(w, wid) && RowIffOut(w.tables)
    ensures WatcherFits(Step(w, e), wid)
  {
    var n, wt := Step(w, e), w.watchers[wid];
    assert n.registry == w.registry && n.watchers[wid].sub == wt.sub && n.tables.rows == w.tables.rows;
    assert HasRow(w.tables, wt.sub) ==> HasRow(n.tables, wt.sub);
    assert n.watchers[wid].phase == MayFail ==> n.tables == w.tables && IsFlux(w.tables.states[wt.sub]);
  }

  lemma {:induction false} BystanderStaysFit(w: World, e: Event, wid: WatcherId)
    requires Enabled(w, e) && !Actor(e, wid) && wid in w.watchers
    requires WatcherFits(w, wid) && TablesAround(w, e, wid)
    requires e.Commit? ==> WatcherFits(w, e.watcher)
    requires TransactionsApart(w)
    requires forall s :: s in w.endMails ==> HasRow(w.tables, s)
    ensures wid in Step(w, e).watchers && WatcherFits(Step(w, e), wid)
  {
    if e.Commit? {
      CommitLeavesOthersFit(w, e, wid);
    } else {
      RestLeavesOthersFit(w, e, wid);
    }
  }

  lemma {:induction false} CommitLeavesOthersFit(w: World, e: Event, wid: WatcherId)
    requires Enabled(w, e) && e.Commit? && e.watcher != wid && wid in w.watchers
    requires WatcherFits(w, wid) && TablesAround(w, e, wid) && WatcherFits(w, e.watcher)
    requires TransactionsApart(w)
    ensures wid in Step(w, e).watchers && WatcherFits(Step(w, e), wid)
  {
    var n, wt := Step(w, e), w.watchers[wid];
    assert n.watchers[wid] == wt && n.registry == w.registry;
  }

  lemma {:induction false} RestLeavesOthersFit(w: World, e: Event, wid: WatcherId)
    requires Enabled(w, e) && !e.Commit? && !Actor(e, wid) && wid in w.watchers
    requires WatcherFits(w, wid) && TablesAround(w, e, wid)
    requires forall s :: s in w.endMails ==> HasRow(w.tables, s)
    ensures wid in Step(w, e).watchers && WatcherFits(Step(w, e), wid)
  {
    var n, wt := Step(w, e), w.watchers[wid];
    assert wid in n.watchers && n.watchers[wid] == wt;
    assert wt.sub in w.registry && !HasRow(w.tables, wt.sub) ==> wt.sub in n.registry && n.registry[wt.sub] == w.registry[wt.sub];
  }

  lemma {:induction false} TransactionsStayApart(w: World, e: Event)
    requires TransactionsApart(w)
    ensures TransactionsApart(Step(w, e))
  {
    var n := Step(w, e);
    forall a, b | a in n.watchers && b in n.watchers && a != b &&
                  InTransaction(n.watchers[a].phase) && InTransaction(n.watchers[b].phase)
      ensures n.watchers[a].phase.result.cfSubId != n.watchers[b].phase.result.cfSubId
    {
      TransactionEntered(w, e, a);
      TransactionEntered(w, e, b);
    }
  }

  /** A transaction is open because it was, or because an unblocked insert has just opened it. */
  lemma {:induction false} TransactionEntered(w: World, e: Event, a: WatcherId)
    requires a in Step(w, e).watchers && InTransaction(Step(w, e).watchers[a].phase)
    ensures a in w.watchers
    ensures || (InTransaction(w.watchers[a].phase) && w.watchers[a].phase.result == Step(w, e).watchers[a].phase.result)
            || (e.ResultArrives? && Enabled(w, e) && e.watcher == a && !InTransaction(w.watchers[a].phase)
                && e.result == Some(Step(w, e).watchers[a].phase.result))
  {
  }

  lemma {:induction false} SnapshotStaysFit(w: World, e: Event, owner: CfId -> BotId, bot: BotId)
    requires Sound(w, owner) && Trusted(e, owner) && bot in Step(w, e).monitors
    ensures SnapshotFits(Step(w, e), bot, owner)
  {
    if e.MonitorRead? && Enabled(w, e) && e.bot == bot {
      FreshSnapshotFits(w, e, owner);
    } else {
      assert bot in w.monitors && SnapshotFits(w, bot, owner);
      OldSnapshotFits(w, e, owner, bot);
    }
  }

  lemma {:induction false} FreshSnapshotFits(w: World, e: Event, owner: CfId -> BotId)
    requires e.MonitorRead? && Enabled(w, e) && Trusted(e, owner) && RowIffOut(w.tables)
    ensures SnapshotFits(Step(w, e), e.bot, owner)
  {
    forall d | d in e.db ensures StillAsRead(w.tables, d) {
      assert InBulk(w.tables, d);
      assert w.tables.rows[d.status.cfSubId].submissionId == d.submissionId;
      assert HasRow(w.tables, d.submissionId);
    }
  }

  lemma {:induction false} OldSnapshotFits(w: World, e: Event, owner: CfId -> BotId, bot: BotId)
    requires Sound(w, owner) && bot in w.monitors && bot in Step(w, e).monitors
    requires !(e.MonitorRead? && Enabled(w, e) && e.bot == bot)
    ensures SnapshotFits(Step(w, e), bot, owner)
  {
    var snap := w.monitors[bot];
    assert Step(w, e).monitors[bot] == snap && !(Enabled(w, e) && e.MonitorWrite? && e.bot == bot);
    assert SnapshotFits(w, bot, owner);
    forall d | d in snap.db && owner(d.status.cfSubId) == bot ensures StillAsRead(Step(w, e).tables, d) {
      assert StillAsRead(w.tables, d);
      if Enabled(w, e) {
        if e.MonitorWrite? {
          OtherMonitorLeavesRow(w, e, owner, bot, d);
        } else {
          if e.Commit? || e.WriteFailure? { assert WatcherFits(w, e.watcher); }
          WatcherLeavesRow(w, e, d);
        }
      }
    }
  }

  /** Nobody but a bot's own monitor moves a row of that bot: watchers write where there is no row, ... */
  lemma {:induction false} WatcherLeavesRow(w: World, e: Event, d: DbEntry)
    requires Enabled(w, e) && !e.MonitorWrite? && StillAsRead(w.tables, d)
    requires e.Commit? || e.WriteFailure? ==> WatcherFits(w, e.watcher)
    ensures StillAsRead(Step(w, e).tables, d)
  {
    assert HasRow(w.tables, d.submissionId);
  }

  /** ... and other monitors update rows of their own bots. */
  lemma {:induction false} OtherMonitorLeavesRow(w: World, e: Event, owner: CfId -> BotId, bot: BotId, d: DbEntry)
    requires e.MonitorWrite? && Enabled(w, e) && e.bot != bot
    requires Consistent(w.tables) && RowIffOut(w.tables) && SnapshotFits(w, e.bot, owner)
    requires StillAsRead(w.tables, d) && owner(d.status.cfSubId) == bot
    ensures StillAsRead(Step(w, e).tables, d)
  {
    MonitorTables(w, e.bot, owner);
  }

  lemma {:induction false} StepKeepsSound(w: World, e: Event, owner: CfId -> BotId)
    requires Sound(w, owner) && Trusted(e, owner)
    ensures Sound(Step(w, e), owner)
    ensures Forward(w.tables, Step(w, e).tables)
  {
    var n := Step(w, e);
    TablesAdvance(w, e, owner);
    TransactionsStayApart(w, e);
    forall wid | wid in n.watchers ensures WatcherFits(n, wid) {
      WatcherStaysFit(w, e, owner, wid);
    }
    forall bot | bot in n.monitors ensures SnapshotFits(n, bot, owner) {
      SnapshotStaysFit(w, e, owner, bot);
    }
    forall s | s in n.endMails ensures HasRow(n.tables, s) {
      MailMeansRow(w, e, s);
    }
  }

  /** The manager is told that a watch has ended only once the submission has its row. */
  lemma {:induction false} MailMeansRow(w: World, e: Event, s: SubId)
    requires s in Step(w, e).endMails && (s in w.endMails ==> HasRow(w.tables, s))
    requires HasRow(w.tables, s) ==> HasRow(Step(w, e).tables, s)
    ensures HasRow(Step(w, e).tables, s)
  {
    if e.Commit? && Enabled(w, e) && e.ok {
      var wt, n := w.watchers[e.watcher], Step(w, e);
      assert n.tables.rows[wt.phase.result.cfSubId].submissionId == wt.sub;
    }
  }

  /** In every interleaving each submission moves through its stages in one direction only, and has a row in
      cf_submissions exactly when it has left the flux states. */
  lemma {:induction false} StagesAreOneWay(w: World, events: seq<Event>, owner: CfId -> BotId)
    requires Sound(w, owner) && forall e :: e in events ==> Trusted(e, owner)
    ensures Sound(Run(w, events), owner) && Forward(w.tables, Run(w, events).tables)
    decreases |events|
  {
    if events != [] {
      assert events[0] in events;
      StepKeepsSound(w, events[0], owner);
      StagesAreOneWay(Step(w, events[0]), events[1..], owner);
    }
  }

  lemma StartIsSound(owner: CfId -> BotId)
    ensures Sound(Start(), owner)
  {
  }

  /** The same from the empty tables on: rows and states agree in every state ever reached. */
  lemma RowsAgreeWithStates(events: seq<Event>, owner: CfId -> BotId)
    requires forall e :: e in events ==> Trusted(e, owner)
    ensures var t := Run(Start(), events).tables;
            Consistent(t) && forall s :: s in t.states ==> (HasRow(t, s) <==> !IsFlux(t.states[s]))
  {
    StartIsSound(owner);
    StagesAreOneWay(Start(), events, owner);
  }

  /** If two monitors may hold an entry for the same row, the later transaction can undo a sink state. */
  lemma SharedEntryGoesBackwards(first: BotId, second: BotId)
    requires first != second
    ensures var row, sub := 7, 1;
            var db := [DbEntry(sub, CfStatus(row, "TESTING", 0, 0, 0))];
            var w := World(
              Tables(map[sub := "TESTING"], map[row := CfRow(sub, 0, 0, 0)]), map[], map[], {},
              map[first := Snapshot([CfStatus(row, "OK", 0, 0, 9)], db),
                  second := Snapshot([CfStatus(row, "TESTING", 0, 0, 3)], db)]);
            var done := Step(w, MonitorWrite(first, true));
            var back := Step(done, MonitorWrite(second, true));
            && BulkListing(w.tables, db)
            && sub in done.tables.states && sub in back.tables.states
            && Stage(done.tables.states[sub]) == 2 && Stage(back.tables.states[sub]) == 1
  {
    var e := DbEntry(1, CfStatus(7, "TESTING", 0, 0, 0));
    JoinOfOne(CfStatus(7, "OK", 0, 0, 9), e);
    JoinOfOne(CfStatus(7, "TESTING", 0, 0, 3), e);
    var t := Tables(map[1 := "TESTING"], map[7 := CfRow(1, 0, 0, 0)]);
    ApplyOfOne(t, Update(7, 1, "OK", 0, 0, 9));
    ApplyOfOne(ApplyOne(t, Update(7, 1, "OK", 0, 0, 9)), Update(7, 1, "TESTING", 0, 0, 3));
    forall d ensures d in [e] <==> InBulk(t, d) {
    }
  }

  lemma {:induction false} JoinOfOne(h: CfStatus, e: DbEntry)
    requires Stale(h, e)
    ensures Join([h], [e]) == [UpdateOf(h, e)]
  {
    assert [h][1..] == [] && [e][1..] == [];
    assert JoinOne(h, [e]) == [UpdateOf(h, e)] + JoinOne(h, []);
  }

  lemma {:induction false} ApplyOfOne(t: Tables, u: Update)
    ensures Apply(t, [u]) == ApplyOne(t, u)
  {
    assert [u][1..] == [];
  }
}
