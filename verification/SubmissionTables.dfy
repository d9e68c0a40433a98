/** The two submission tables and the states a submission can be in. */
module SubmissionTables {

  type SubId = nat
  type CfId = nat

  const FLUX_QUEUED := "flux_queued"
  const FLUX_FAILED := "flux_failed"

  const CF_SINK_STATES: set<string> := {
    "FAILED", "OK", "PARTIAL", "COMPILATION_ERROR", "RUNTIME_ERROR", "WRONG_ANSWER",
    "TIME_LIMIT_EXCEEDED", "MEMORY_LIMIT_EXCEEDED", "IDLENESS_LIMIT_EXCEEDED", "SECURITY_VIOLATED",
    "CRASHED", "INPUT_PREPARATION_CRASHED", "CHALLENGED", "SKIPPED", "REJECTED"
  }

  predicate IsFlux(state: string) { state == FLUX_QUEUED || state == FLUX_FAILED }

  predicate IsSink(state: string) { state in CF_SINK_STATES }

  /** The verdicts after which a submission does not change any more; the flux states are not among them. */
  lemma FinalVerdicts(v: string)
    ensures IsSink(v) <==>
      || v == "FAILED" || v == "OK" || v == "PARTIAL" || v == "COMPILATION_ERROR" || v == "RUNTIME_ERROR"
      || v == "WRONG_ANSWER" || v == "TIME_LIMIT_EXCEEDED" || v == "MEMORY_LIMIT_EXCEEDED"
      || v == "IDLENESS_LIMIT_EXCEEDED" || v == "SECURITY_VIOLATED" || v == "CRASHED"
      || v == "INPUT_PREPARATION_CRASHED" || v == "CHALLENGED" || v == "SKIPPED" || v == "REJECTED"
    ensures IsFlux(v) ==> !IsSink(v)
  {
  }

  /** What Codeforces reports about one submission. */
  datatype CfStatus = CfStatus(cfSubId: CfId, verdict: string, time: int, memory: int, passed: int)

  /** A row of cf_submissions. */
  datatype CfRow = CfRow(submissionId: SubId, time: int, memory: int, passed: int)

  datatype Tables = Tables(states: map<SubId, string>, rows: map<CfId, CfRow>)

  /** The foreign key and the two uniqueness constraints of cf_submissions. */
  ghost predicate Consistent(t: Tables)
  {
    && (forall c :: c in t.rows ==> t.rows[c].submissionId in t.states)
    && (forall c, d :: c in t.rows && d in t.rows && t.rows[c].submissionId == t.rows[d].submissionId ==> c == d)
  }

  /** A row joined with the state of its submission. */
  function StatusOf(t: Tables, c: CfId): CfStatus
    requires c in t.rows && t.rows[c].submissionId in t.states
  {
    var row := t.rows[c];
    CfStatus(c, t.states[row.submissionId], row.time, row.memory, row.passed)
  }

  /** One joined row, as the bulk query returns it. */
  datatype DbEntry = DbEntry(submissionId: SubId, status: CfStatus)

  /** The query leaves out submissions that have reached a sink state. */
  ghost predicate InBulk(t: Tables, e: DbEntry)
  {
    && e.status.cfSubId in t.rows
    && t.rows[e.status.cfSubId].submissionId in t.states
    && e == DbEntry(t.rows[e.status.cfSubId].submissionId, StatusOf(t, e.status.cfSubId))
    && !IsSink(e.status.verdict)
  }

  datatype Update = Update(cfId: CfId, submissionId: SubId, state: string, time: int, memory: int, passed: int)

  function ApplyOne(t: Tables, u: Update): Tables
  {
    Tables(
      if u.submissionId in t.states then t.states[u.submissionId := u.state] else t.states,
      if u.cfId in t.rows then t.rows[u.cfId := t.rows[u.cfId].(time := u.time, memory := u.memory, passed := u.passed)] else t.rows)
  }

  /** The two bulk update statements of one transaction. */
  function Apply(t: Tables, updates: seq<Update>): Tables
    decreases |updates|
  {
    if updates == [] then t else Apply(ApplyOne(t, updates[0]), updates[1..])
  }
}

/** The two-pointer merge of fetched entries with database entries, and the join it computes. */
module MergeUpdates {
  import opened SubmissionTables

  function UpdateOf(h: CfStatus, e: DbEntry): Update
  {
    Update(h.cfSubId, e.submissionId, h.verdict, h.time, h.memory, h.passed)
  }

  predicate Stale(h: CfStatus, e: DbEntry) { h.cfSubId == e.status.cfSubId && h != e.status }

  /** The nested-loop join: for every fetched entry, every database entry. */
  function Join(http: seq<CfStatus>, db: seq<DbEntry>): seq<Update>
  {
    if http == [] then [] else JoinOne(http[0], db) + Join(http[1..], db)
  }

  function JoinOne(h: CfStatus, db: seq<DbEntry>): seq<Update>
  {
    if db == [] then [] else (if Stale(h, db[0]) then [UpdateOf(h, db[0])] else []) + JoinOne(h, db[1..])
  }

  ghost predicate HttpAscending(s: seq<CfStatus>) { forall i, j :: 0 <= i < j < |s| ==> s[i].cfSubId < s[j].cfSubId }

  ghost predicate DbAscending(s: seq<DbEntry>) { forall i, j :: 0 <= i < j < |s| ==> s[i].status.cfSubId < s[j].status.cfSubId }

  /** The six parallel columns, read row by row. */
  function Rows(
    cfIds: seq<CfId>, subIds: seq<SubId>, states: seq<string>, times: seq<int>, memories: seq<int>, passed: seq<int>): seq<Update>
    requires |cfIds| == |subIds| == |states| == |times| == |memories| == |passed|
  {
    seq(|cfIds|, i requires 0 <= i < |cfIds| => Update(cfIds[i], subIds[i], states[i], times[i], memories[i], passed[i]))
  }

  /** The columns spell out these rows. */
  ghost predicate Columns(
    rows: seq<Update>,
    cfIds: seq<CfId>, subIds: seq<SubId>, states: seq<string>, times: seq<int>, memories: seq<int>, passed: seq<int>)
  {
    && |cfIds| == |subIds| == |states| == |times| == |memories| == |passed| == |rows|
    && forall k :: 0 <= k < |rows| ==> rows[k] == Update(cfIds[k], subIds[k], states[k], times[k], memories[k], passed[k])
  }

  lemma {:induction false} ColumnsAppend(
    rows: seq<Update>, u: Update,
    cfIds: seq<CfId>, subIds: seq<SubId>, states: seq<string>, times: seq<int>, memories: seq<int>, passed: seq<int>)
    requires Columns(rows, cfIds, subIds, states, times, memories, passed)
    ensures Columns(rows + [u], cfIds + [u.cfId], subIds + [u.submissionId], states + [u.state], times + [u.time],
                    memories + [u.memory], passed + [u.passed])
  {
  }

  lemma {:induction false} NoMatchInDb(h: CfStatus, db: seq<DbEntry>)
    requires forall i :: 0 <= i < |db| ==> db[i].status.cfSubId != h.cfSubId
    ensures JoinOne(h, db) == []
  {
    if db != [] {
      NoMatchInDb(h, db[1..]);
    }
  }

  /** A database entry below every fetched id contributes nothing. */
  lemma {:induction false} SkipDb(http: seq<CfStatus>, db: seq<DbEntry>)
    requires 0 < |db| && forall i :: 0 <= i < |http| ==> db[0].status.cfSubId != http[i].cfSubId
    ensures Join(http, db) == Join(http, db[1..])
  {
    if http != [] {
      SkipDb(http[1..], db);
    }
  }

  lemma {:induction false} SkipHttp(http: seq<CfStatus>, db: seq<DbEntry>)
    requires 0 < |http| && 0 < |db| && DbAscending(db) && http[0].cfSubId < db[0].status.cfSubId
    ensures Join(http, db) == Join(http[1..], db)
  {
    NoMatchInDb(http[0], db);
  }

  lemma {:induction false} TakeBoth(http: seq<CfStatus>, db: seq<DbEntry>)
    requires 0 < |http| && 0 < |db| && HttpAscending(http) && DbAscending(db)
    requires http[0].cfSubId == db[0].status.cfSubId
    ensures Join(http, db) ==
            (if Stale(http[0], db[0]) then [UpdateOf(http[0], db[0])] else []) + Join(http[1..], db[1..])
  {
    NoMatchInDb(http[0], db[1..]);
    SkipDb(http[1..], db);
  }

  lemma {:induction false} EmptyDb(http: seq<CfStatus>)
    ensures Join(http, []) == []
  {
    if http != [] {
      EmptyDb(http[1..]);
    }
  }

  /** The join of what the two pointers have not passed yet. */
  ghost function JoinFrom(http: seq<CfStatus>, i: nat, db: seq<DbEntry>, j: nat): seq<Update>
    requires i <= |http| && j <= |db|
  {
    Join(http[i..], db[j..])
  }

  lemma Advance(http: seq<CfStatus>, i: nat, db: seq<DbEntry>, j: nat)
    requires HttpAscending(http) && DbAscending(db) && i < |http| && j < |db|
    ensures http[i].cfSubId > db[j].status.cfSubId ==> JoinFrom(http, i, db, j) == JoinFrom(http, i, db, j + 1)
    ensures http[i].cfSubId < db[j].status.cfSubId ==> JoinFrom(http, i, db, j) == JoinFrom(http, i + 1, db, j)
    ensures http[i].cfSubId == db[j].status.cfSubId ==>
              JoinFrom(http, i, db, j) ==
              (if Stale(http[i], db[j]) then [UpdateOf(http[i], db[j])] else []) + JoinFrom(http, i + 1, db, j + 1)
  {
    assert http[i..][1..] == http[i + 1..] && db[j..][1..] == db[j + 1..];
    if http[i].cfSubId > db[j].status.cfSubId {
      SkipDb(http[i..], db[j..]);
    } else if http[i].cfSubId < db[j].status.cfSubId {
      SkipHttp(http[i..], db[j..]);
    } else {
      TakeBoth(http[i..], db[j..]);
    }
  }

  lemma NothingLeft(http: seq<CfStatus>, i: nat, db: seq<DbEntry>, j: nat)
    requires i <= |http| && j <= |db| && (i == |http| || j == |db|)
    ensures JoinFrom(http, i, db, j) == []
  {
    if j == |db| {
      EmptyDb(http[i..]);
    }
  }

  /** The rows found so far and what the pointers have not passed make up the join. */
  ghost predicate Merging(rows: seq<Update>, http: seq<CfStatus>, i: nat, db: seq<DbEntry>, j: nat)
  {
    i <= |http| && j <= |db| && rows + JoinFrom(http, i, db, j) == Join(http, db)
  }

  lemma MergeBegins(http: seq<CfStatus>, db: seq<DbEntry>)
    ensures Merging([], http, 0, db, 0)
  {
    assert http[0..] == http && db[0..] == db;
  }

  lemma MergeAdvances(rows: seq<Update>, http: seq<CfStatus>, i: nat, db: seq<DbEntry>, j: nat)
    requires HttpAscending(http) && DbAscending(db) && i < |http| && j < |db| && Merging(rows, http, i, db, j)
    ensures http[i].cfSubId > db[j].status.cfSubId ==> Merging(rows, http, i, db, j + 1)
    ensures http[i].cfSubId < db[j].status.cfSubId ==> Merging(rows, http, i + 1, db, j)
    ensures http[i].cfSubId == db[j].status.cfSubId ==>
              Merging(if Stale(http[i], db[j]) then rows + [UpdateOf(http[i], db[j])] else rows, http, i + 1, db, j + 1)
  {
    Advance(http, i, db, j);
  }

  lemma MergeEnds(rows: seq<Update>, http: seq<CfStatus>, i: nat, db: seq<DbEntry>, j: nat)
    requires Merging(rows, http, i, db, j) && (i == |http| || j == |db|)
    ensures rows == Join(http, db)
  {
    NothingLeft(http, i, db, j);
  }

  /** The two-pointer loop; its six columns are the rows of the join. */
  method MergeEntries(httpEntries: seq<CfStatus>, dbEntries: seq<DbEntry>)
    returns (cfIds: seq<CfId>, subIds: seq<SubId>, states: seq<string>, times: seq<int>, memories: seq<int>, passed: seq<int>)
    requires HttpAscending(httpEntries) && DbAscending(dbEntries)
    ensures |cfIds| == |subIds| == |states| == |times| == |memories| == |passed|
    ensures Rows(cfIds, subIds, states, times, memories, passed) == Join(httpEntries, dbEntries)
  {
    cfIds, subIds, states, times, memories, passed := [], [], [], [], [], [];
    ghost var rows: seq<Update> := [];
    var i, j := 0, 0;
    MergeBegins(httpEntries, dbEntries);
    while i < |httpEntries| && j < |dbEntries|
      invariant i <= |httpEntries| && j <= |dbEntries|
      invariant Columns(rows, cfIds, subIds, states, times, memories, passed)
      invariant Merging(rows, httpEntries, i, dbEntries, j)
      decreases |httpEntries| - i + |dbEntries| - j
    {
      var httpEntry, dbEntry := httpEntries[i], dbEntries[j];
      MergeAdvances(rows, httpEntries, i, dbEntries, j);
      if httpEntry.cfSubId > dbEntry.status.cfSubId {
        j := j + 1;
        continue;
      }
      if httpEntry.cfSubId < dbEntry.status.cfSubId {
        i := i + 1;
        continue;
      }
      if httpEntry != dbEntry.status {
        ColumnsAppend(rows, UpdateOf(httpEntry, dbEntry), cfIds, subIds, states, times, memories, passed);
        cfIds := cfIds + [httpEntry.cfSubId];
        subIds := subIds + [dbEntry.submissionId];
        states := states + [httpEntry.verdict];
        times := times + [httpEntry.time];
        memories := memories + [httpEntry.memory];
        passed := passed + [httpEntry.passed];
        rows := rows + [UpdateOf(httpEntry, dbEntry)];
      }
      i := i + 1;
      j := j + 1;
    }
    MergeEnds(rows, httpEntries, i, dbEntries, j);
  }

  // ---- What the join contains ----

  ghost predicate Pairs(http: seq<CfStatus>, db: seq<DbEntry>, u: Update)
  {
    exists h, e :: h in http && e in db && Stale(h, e) && u == UpdateOf(h, e)
  }

  lemma {:induction false} JoinOneExact(h: CfStatus, db: seq<DbEntry>, u: Update)
    ensures u in JoinOne(h, db) <==> exists e :: e in db && Stale(h, e) && u == UpdateOf(h, e)
  {
    if db != [] {
      JoinOneExact(h, db[1..], u);
      assert db == [db[0]] + db[1..];
    }
  }

  /** An update is listed exactly for an id on both sides whose fields differ, with the submission the database
      has for it. */
  lemma {:induction false} JoinExact(http: seq<CfStatus>, db: seq<DbEntry>, u: Update)
    ensures u in Join(http, db) <==> Pairs(http, db, u)
  {
    if http != [] {
      JoinOneExact(http[0], db, u);
      JoinExact(http[1..], db, u);
      assert http == [http[0]] + http[1..];
    }
  }

  ghost predicate UpdatesAscending(s: seq<Update>) { forall i, j :: 0 <= i < j < |s| ==> s[i].cfId < s[j].cfId }

  lemma {:induction false} JoinOneAtMostOne(h: CfStatus, db: seq<DbEntry>)
    requires DbAscending(db)
    ensures |JoinOne(h, db)| <= 1
  {
    if db != [] {
      JoinOneAtMostOne(h, db[1..]);
      if h.cfSubId == db[0].status.cfSubId {
        NoMatchInDb(h, db[1..]);
      }
    }
  }

  /** The updates come in id order, each id once. */
  lemma {:induction false} JoinAscending(http: seq<CfStatus>, db: seq<DbEntry>)
    requires HttpAscending(http) && DbAscending(db)
    ensures UpdatesAscending(Join(http, db))
  {
    if http != [] {
      JoinAscending(http[1..], db);
      JoinOneAtMostOne(http[0], db);
      forall u | u in Join(http[1..], db) ensures http[0].cfSubId < u.cfId {
        JoinExact(http[1..], db, u);
        var h, e :| h in http[1..] && e in db && Stale(h, e) && u == UpdateOf(h, e);
        var i :| 0 <= i < |http[1..]| && http[1..][i] == h;
        assert http[i + 1] == h;
      }
      forall u | u in JoinOne(http[0], db) ensures u.cfId == http[0].cfSubId {
        JoinOneExact(http[0], db, u);
      }
    }
  }

  // ---- What applying it does ----

  /** `db` is the sorted answer of the bulk query. */
  ghost predicate BulkListing(t: Tables, db: seq<DbEntry>)
  {
    DbAscending(db) && forall e :: e in db <==> InBulk(t, e)
  }

  /** The updates touch existing rows of distinct submissions. */
  ghost predicate Targets(t: Tables, updates: seq<Update>)
  {
    && (forall u :: u in updates ==> u.cfId in t.rows && t.rows[u.cfId].submissionId == u.submissionId)
    && (forall i, j :: 0 <= i < j < |updates| ==> updates[i].cfId != updates[j].cfId)
  }

  function StatusWritten(u: Update): CfStatus { CfStatus(u.cfId, u.state, u.time, u.memory, u.passed) }

  lemma {:induction false} TargetsRemain(t: Tables, updates: seq<Update>)
    requires Consistent(t) && Targets(t, updates) && 0 < |updates|
    ensures var n := ApplyOne(t, updates[0]);
            && Consistent(n) && Targets(n, updates[1..])
            && n.rows.Keys == t.rows.Keys && n.states.Keys == t.states.Keys
            && forall c :: c in t.rows ==> n.rows[c].submissionId == t.rows[c].submissionId
  {
    assert updates[0] in updates;
  }

  lemma {:induction false} ApplyKeepsShape(t: Tables, updates: seq<Update>)
    requires Consistent(t) && Targets(t, updates)
    ensures var n := Apply(t, updates);
            && Consistent(n) && n.rows.Keys == t.rows.Keys && n.states.Keys == t.states.Keys
            && forall c :: c in t.rows ==> n.rows[c].submissionId == t.rows[c].submissionId
    decreases |updates|
  {
    if 0 < |updates| {
      TargetsRemain(t, updates);
      ApplyKeepsShape(ApplyOne(t, updates[0]), updates[1..]);
    }
  }

  lemma {:induction false} ApplyLeavesRow(t: Tables, updates: seq<Update>, c: CfId)
    requires Consistent(t) && Targets(t, updates)
    requires c in t.rows && forall u :: u in updates ==> u.cfId != c
    ensures Consistent(Apply(t, updates)) && c in Apply(t, updates).rows
    ensures StatusOf(Apply(t, updates), c) == StatusOf(t, c)
    decreases |updates|
  {
    if 0 < |updates| {
      TargetsRemain(t, updates);
      assert updates[0] in updates;
      assert StatusOf(ApplyOne(t, updates[0]), c) == StatusOf(t, c);
      ApplyLeavesRow(ApplyOne(t, updates[0]), updates[1..], c);
    }
  }

  lemma {:induction false} ApplyWritesRow(t: Tables, updates: seq<Update>, k: nat)
    requires Consistent(t) && Targets(t, updates) && k < |updates|
    ensures Consistent(Apply(t, updates)) && updates[k].cfId in Apply(t, updates).rows
    ensures StatusOf(Apply(t, updates), updates[k].cfId) == StatusWritten(updates[k])
    decreases |updates|
  {
    TargetsRemain(t, updates);
    var n := ApplyOne(t, updates[0]);
    if k == 0 {
      assert updates[0] in updates;
      assert StatusOf(n, updates[0].cfId) == StatusWritten(updates[0]);
      ApplyLeavesRow(n, updates[1..], updates[0].cfId);
    } else {
      ApplyWritesRow(n, updates[1..], k - 1);
    }
  }

  lemma {:induction false} ApplyLeavesState(t: Tables, updates: seq<Update>, s: SubId)
    requires s in t.states && forall u :: u in updates ==> u.submissionId != s
    ensures s in Apply(t, updates).states && Apply(t, updates).states[s] == t.states[s]
    decreases |updates|
  {
    if 0 < |updates| {
      assert updates[0] in updates;
      ApplyLeavesState(ApplyOne(t, updates[0]), updates[1..], s);
    }
  }

  lemma JoinTargets(t: Tables, http: seq<CfStatus>, db: seq<DbEntry>)
    requires HttpAscending(http) && BulkListing(t, db)
    ensures Targets(t, Join(http, db))
  {
    JoinAscending(http, db);
    forall u | u in Join(http, db) ensures u.cfId in t.rows && t.rows[u.cfId].submissionId == u.submissionId {
      JoinExact(http, db, u);
    }
  }

  ghost predicate DistinctIds(http: seq<CfStatus>)
  {
    forall i, j :: 0 <= i < j < |http| ==> http[i].cfSubId != http[j].cfSubId
  }

  /** This entry has a row whose submission is still open. */
  ghost predicate Open(t: Tables, c: CfId)
  {
    c in t.rows && t.rows[c].submissionId in t.states && !IsSink(t.states[t.rows[c].submissionId])
  }

  ghost predicate FetchedId(http: seq<CfStatus>, c: CfId) { exists h :: h in http && h.cfSubId == c }

  /** After an update every open fetched row equals what was fetched, and nothing else has moved. */
  ghost predicate Reconciled(t: Tables, http: seq<CfStatus>, n: Tables)
    requires Consistent(t)
  {
    && Consistent(n) && n.rows.Keys == t.rows.Keys && n.states.Keys == t.states.Keys
    && (forall c :: c in t.rows ==> n.rows[c].submissionId == t.rows[c].submissionId)
    && (forall h :: h in http && Open(t, h.cfSubId) ==> StatusOf(n, h.cfSubId) == h)
    && (forall c :: c in t.rows && !(Open(t, c) && FetchedId(http, c)) ==> StatusOf(n, c) == StatusOf(t, c))
    && (forall s :: s in t.states && (forall c :: c in t.rows ==> t.rows[c].submissionId != s) ==> n.states[s] == t.states[s])
  }

  lemma SameIdSameEntry(http: seq<CfStatus>, db: seq<DbEntry>)
    requires HttpAscending(http) && DbAscending(db)
    ensures forall h, g :: h in http && g in http && h.cfSubId == g.cfSubId ==> h == g
    ensures forall e, f :: e in db && f in db && e.status.cfSubId == f.status.cfSubId ==> e == f
  {
    forall h, g | h in http && g in http && h.cfSubId == g.cfSubId ensures h == g {
      var i :| 0 <= i < |http| && http[i] == h;
      var j :| 0 <= j < |http| && http[j] == g;
    }
    forall e, f | e in db && f in db && e.status.cfSubId == f.status.cfSubId ensures e == f {
      var i :| 0 <= i < |db| && db[i] == e;
      var j :| 0 <= j < |db| && db[j] == f;
    }
  }

  lemma FetchedRowMatches(t: Tables, http: seq<CfStatus>, db: seq<DbEntry>, h: CfStatus)
    requires Consistent(t) && HttpAscending(http) && BulkListing(t, db)
    requires h in http && Open(t, h.cfSubId)
    ensures Targets(t, Join(http, db))
    ensures var n := Apply(t, Join(http, db));
            Consistent(n) && h.cfSubId in n.rows && StatusOf(n, h.cfSubId) == h
  {
    var updates := Join(http, db);
    JoinTargets(t, http, db);
    ApplyKeepsShape(t, updates);
    var e := DbEntry(t.rows[h.cfSubId].submissionId, StatusOf(t, h.cfSubId));
    assert InBulk(t, e) && e in db;
    if Stale(h, e) {
      JoinExact(http, db, UpdateOf(h, e));
      var k :| 0 <= k < |updates| && updates[k] == UpdateOf(h, e);
      ApplyWritesRow(t, updates, k);
    } else {
      forall u | u in updates ensures u.cfId != h.cfSubId {
        JoinExact(http, db, u);
        SameIdSameEntry(http, db);
      }
      ApplyLeavesRow(t, updates, h.cfSubId);
    }
  }

  /** Applying the join reconciles the tables with the fetch. */
  lemma UpdateReconciles(t: Tables, http: seq<CfStatus>, db: seq<DbEntry>)
    requires Consistent(t) && HttpAscending(http) && BulkListing(t, db)
    ensures Reconciled(t, http, Apply(t, Join(http, db)))
  {
    var updates := Join(http, db);
    var n := Apply(t, updates);
    JoinTargets(t, http, db);
    ApplyKeepsShape(t, updates);
    forall h | h in http && Open(t, h.cfSubId) ensures StatusOf(n, h.cfSubId) == h {
      FetchedRowMatches(t, http, db, h);
    }
    forall c | c in t.rows && !(Open(t, c) && FetchedId(http, c)) ensures StatusOf(n, c) == StatusOf(t, c) {
      forall u | u in updates ensures u.cfId != c {
        JoinExact(http, db, u);
      }
      ApplyLeavesRow(t, updates, c);
    }
    forall s | s in t.states && (forall c :: c in t.rows ==> t.rows[c].submissionId != s) ensures n.states[s] == t.states[s] {
      forall u | u in updates ensures u.submissionId != s {
        assert t.rows[u.cfId].submissionId == u.submissionId;
      }
      ApplyLeavesState(t, updates, s);
    }
  }

  /** A second pass over the same fetch has nothing left to write. */
  lemma SecondPassFindsNothing(t: Tables, http: seq<CfStatus>, n: Tables, db: seq<DbEntry>)
    requires Consistent(t) && HttpAscending(http) && Reconciled(t, http, n) && BulkListing(n, db)
    ensures Join(http, db) == []
  {
    forall h, e | h in http && e in db && h.cfSubId == e.status.cfSubId ensures h == e.status {
      assert InBulk(n, e);
    }
    var left := Join(http, db);
    if 0 < |left| {
      JoinExact(http, db, left[0]);
    }
  }
}

/** The update pass of a bot monitor over the submission tables. */
module MonitorUpdate {
  import opened Sorting
  import opened SubmissionTables
  import opened MergeUpdates

  class SubmissionDb {
    var states: map<SubId, string>
    var rows: map<CfId, CfRow>

    ghost function State(): Tables
      reads this
    {
      Tables(states, rows)
    }

    constructor ()
      ensures State() == Tables(map[], map[])
    {
      states, rows := map[], map[];
    }

    /** `getBulkEntries`: the open rows, in the order the database returns them. */
    method GetBulkEntries() returns (entries: seq<DbEntry>)
      requires Consistent(State())
      ensures forall e :: e in entries <==> InBulk(State(), e)
      ensures forall i, j :: 0 <= i < j < |entries| ==> entries[i].status.cfSubId != entries[j].status.cfSubId
    {
      entries := [];
      var rest := rows.Keys;
      while rest != {}
        invariant rest <= rows.Keys
        invariant forall e :: e in entries <==> InBulk(State(), e) && e.status.cfSubId !in rest
        invariant forall i, j :: 0 <= i < j < |entries| ==> entries[i].status.cfSubId != entries[j].status.cfSubId
        decreases rest
      {
        var c :| c in rest;
        var row := rows[c];
        if !IsSink(states[row.submissionId]) {
          var e := DbEntry(row.submissionId, CfStatus(c, states[row.submissionId], row.time, row.memory, row.passed));
          assert forall i :: 0 <= i < |entries| ==> entries[i] in entries;
          entries := entries + [e];
        }
        rest := rest - {c};
      }
    }

    /** One pass; `readOk` and `commitOk` say whether the query and the transaction succeed. */
    method UpdateEntriesIntoDb(httpEntries: seq<CfStatus>, readOk: bool, commitOk: bool) returns (updateStopDecision: bool)
      requires Consistent(State()) && DistinctIds(httpEntries)
      modifies this
      ensures updateStopDecision <==>
                !readOk || exists h :: h in httpEntries && old(Open(State(), h.cfSubId)) && h != StatusOf(old(State()), h.cfSubId)
      ensures if readOk && commitOk then Reconciled(old(State()), httpEntries, State()) else State() == old(State())
      ensures states.Keys == old(states).Keys && rows.Keys == old(rows).Keys
      ensures readOk && commitOk ==> FetchedWritten(old(State()), httpEntries, State())
    {
      if !readOk {
        return true;
      }
      var http := SortHttp(httpEntries);
      var dbEntries := GetBulkEntries();
      var db := SortDb(dbEntries);
      var cfIds, subIds, newStates, times, memories, passed := MergeEntries(http, db);
      ghost var updates := Join(http, db);
      StaleRowsMeanUpdates(State(), http, db);
      UpdateReconciles(State(), http, db);
      SameFetch(State(), http, httpEntries, Apply(State(), updates));
      FetchedRowsSpelledOut(State(), httpEntries, Apply(State(), updates));
      if |cfIds| == 0 {
        assert updates == [];
        return false;
      }
      updateStopDecision := true;
      assert updates[0] == Update(cfIds[0], subIds[0], newStates[0], times[0], memories[0], passed[0]);
      if !commitOk {
        return;
      }
      var n := Apply(Tables(states, rows),
                     Rows(cfIds, subIds, newStates, times, memories, passed));
      states, rows := n.states, n.rows;
    }
  }

  /** Every fetched row whose submission has not reached a sink state now holds what was fetched, column by column,
      and its submission the fetched verdict; all other rows are as before. */
  ghost predicate FetchedWritten(t: Tables, http: seq<CfStatus>, n: Tables)
  {
    && n.rows.Keys == t.rows.Keys && n.states.Keys == t.states.Keys
    && (forall h :: h in http && h.cfSubId in t.rows && t.rows[h.cfSubId].submissionId in t.states ==>
          IsSink(t.states[t.rows[h.cfSubId].submissionId]) || (
          && n.states[t.rows[h.cfSubId].submissionId] == h.verdict
          && n.rows[h.cfSubId] == CfRow(t.rows[h.cfSubId].submissionId, h.time, h.memory, h.passed)))
    && (forall c :: c in t.rows && (forall h :: h in http ==> h.cfSubId != c) ==> n.rows[c] == t.rows[c])
  }

  lemma {:induction false} FetchedRowsSpelledOut(t: Tables, http: seq<CfStatus>, n: Tables)
    requires Consistent(t) && Reconciled(t, http, n)
    ensures FetchedWritten(t, http, n)
  {
    forall h | h in http && h.cfSubId in t.rows && !IsSink(t.states[t.rows[h.cfSubId].submissionId])
      ensures n.states[t.rows[h.cfSubId].submissionId] == h.verdict
      ensures n.rows[h.cfSubId] == CfRow(t.rows[h.cfSubId].submissionId, h.time, h.memory, h.passed)
    {
      assert Open(t, h.cfSubId);
      assert StatusOf(n, h.cfSubId) == h;
    }
    forall c | c in t.rows && (forall h :: h in http ==> h.cfSubId != c) ensures n.rows[c] == t.rows[c] {
      assert StatusOf(n, c) == StatusOf(t, c);
    }
  }

  method SortHttp(entries: seq<CfStatus>) returns (sorted: seq<CfStatus>)
    requires DistinctIds(entries)
    ensures HttpAscending(sorted)
    ensures forall h :: h in sorted <==> h in entries
  {
    var less := (a: CfStatus, b: CfStatus) => a.cfSubId < b.cfSubId;
    sorted := SortSlice(entries, less);
    ghost var elements := set h | h in entries;
    ListsPermuted(entries, sorted, elements);
    forall i, j | 0 <= i < j < |sorted| ensures sorted[i].cfSubId < sorted[j].cfSubId {
      assert !less(sorted[j], sorted[i]);
      assert sorted[i] in elements && sorted[j] in elements;
    }
  }

  method SortDb(entries: seq<DbEntry>) returns (sorted: seq<DbEntry>)
    requires forall i, j :: 0 <= i < j < |entries| ==> entries[i].status.cfSubId != entries[j].status.cfSubId
    ensures DbAscending(sorted)
    ensures forall e :: e in sorted <==> e in entries
  {
    var less := (a: DbEntry, b: DbEntry) => a.status.cfSubId < b.status.cfSubId;
    sorted := SortSlice(entries, less);
    ghost var elements := set e | e in entries;
    ListsPermuted(entries, sorted, elements);
    forall i, j | 0 <= i < j < |sorted| ensures sorted[i].status.cfSubId < sorted[j].status.cfSubId {
      assert !less(sorted[j], sorted[i]);
      assert sorted[i] in elements && sorted[j] in elements;
    }
  }

  lemma SameFetch(t: Tables, http: seq<CfStatus>, other: seq<CfStatus>, n: Tables)
    requires Consistent(t) && forall h :: h in http <==> h in other
    requires Reconciled(t, http, n)
    ensures Reconciled(t, other, n)
  {
    forall c ensures FetchedId(http, c) == FetchedId(other, c) {
    }
  }

  lemma StaleRowsMeanUpdates(t: Tables, http: seq<CfStatus>, db: seq<DbEntry>)
    requires Consistent(t) && BulkListing(t, db)
    ensures Join(http, db) != [] <==> exists h :: h in http && Open(t, h.cfSubId) && h != StatusOf(t, h.cfSubId)
  {
    if Join(http, db) != [] {
      var u := Join(http, db)[0];
      assert u in Join(http, db);
      JoinExact(http, db, u);
      var h, e :| h in http && e in db && Stale(h, e) && u == UpdateOf(h, e);
      assert InBulk(t, e);
    }
    if h :| h in http && Open(t, h.cfSubId) && h != StatusOf(t, h.cfSubId) {
      var e := DbEntry(t.rows[h.cfSubId].submissionId, StatusOf(t, h.cfSubId));
      assert InBulk(t, e);
      JoinExact(http, db, UpdateOf(h, e));
    }
  }
}
