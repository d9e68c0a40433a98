/** The tables behind contests, locks and tournaments, and the service calls that change them. A refused call leaves
    the tables alone. Every call is one step; only the creation of a round is also available in two halves. */
module TournamentModel {
  import opened Options

  type LockId = nat
  type ContestId = nat
  type TournamentId = nat
  type CreatorId = nat

  /** The all-zero UUID, which no table row carries. */
  const NIL_ID: nat := 0
  const MINUTE := 60
  const DAY := 24 * 60 * MINUTE
  const EPOCH := 0
  const ZERO_TIME := -62135596800
  const MAX_PAGE_SIZE := 10000

  datatype LockKind = Manual | Timer

  datatype Lock = Lock(kind: LockKind, timeout: Option<int>)

  datatype Contest = Contest(lockId: Option<LockId>, startTime: Option<int>, endTime: int, published: bool)

  datatype RoundKey = RoundKey(tournament: TournamentId, number: int)

  datatype Store = Store(
    now: int,
    locks: map<LockId, Lock>,
    contests: map<ContestId, Contest>,
    tournaments: set<TournamentId>,
    rounds: set<RoundKey>,
    roundContests: set<(RoundKey, ContestId)>,
    creators: map<CreatorId, RoundKey>)

  datatype Call =
    | Tick(elapsed: nat)
    | CreateLock(lock: LockId, kind: LockKind, timeout: Option<int>)
    | UpdateLock(lock: LockId, kind: LockKind, timeout: Option<int>)
    | DeleteLock(lock: LockId)
    | CreateContest(contest: ContestId, row: Contest, users: nat)
    | UpdateContest(contest: ContestId, target: ContestId, row: Contest)
    | DeleteContest(contest: ContestId)
    | CreateTournament(tournament: TournamentId)
    | CreateRound(tournament: TournamentId, roundLock: Option<LockId>)
    | ChangeContests(tournament: TournamentId, number: int, ids: seq<ContestId>)
    | BeginRound(creator: CreatorId, tournament: TournamentId, roundLock: Option<LockId>)
    | InsertRound(creator: CreatorId)

  // ---- Queries ----

  ghost function Pick<T>(values: set<T>): (v: T)
    requires values != {}
    ensures v in values
  {
    var v :| v in values; v
  }

  /** SQL's COALESCE(MAX(...), default). */
  ghost function MaxOr(values: set<int>, default: int): (m: int)
    ensures values == {} ==> m == default
    ensures values != {} ==> m in values
    ensures forall v :: v in values ==> v <= m
    decreases |values|
  {
    if values == {} then default else
      var v := Pick(values);
      var rest := values - {v};
      var greatest := MaxOr(rest, v);
      assert values == rest + {v};
      if greatest < v then v else greatest
  }

  ghost function RoundNumbers(s: Store, t: TournamentId): set<int>
  {
    set k | k in s.rounds && k.tournament == t :: k.number
  }

  /** The `rounds` column of a fetched tournament. */
  ghost function Rounds(s: Store, t: TournamentId): int { MaxOr(RoundNumbers(s, t), 0) }

  ghost function LatestRound(s: Store, t: TournamentId): RoundKey { RoundKey(t, Rounds(s, t)) }

  ghost function LatestRoundEnds(s: Store, t: TournamentId): set<int>
  {
    set p | p in s.roundContests && p.0 == LatestRound(s, t) && p.1 in s.contests :: s.contests[p.1].endTime
  }

  ghost function LatestRoundEndTime(s: Store, t: TournamentId): int { MaxOr(LatestRoundEnds(s, t), EPOCH) }

  /** The timeout column joined in from the lock, if any. */
  function LockTimeout(locks: map<LockId, Lock>, c: Contest): Option<int>
  {
    if c.lockId.Some? && c.lockId.value in locks then locks[c.lockId.value].timeout else None
  }

  /** The start time a filtered fetch reports. */
  function FetchedStart(locks: map<LockId, Lock>, c: Contest): Option<int>
  {
    if c.startTime.Some? then c.startTime else LockTimeout(locks, c)
  }

  /** The contests a fetch by these ids returns. */
  function Fetched(s: Store, ids: seq<ContestId>): set<ContestId>
  {
    set id | id in ids && id in s.contests && FetchedStart(s.locks, s.contests[id]).Some?
  }

  // ---- Validations ----

  predicate ValidLock(now: int, kind: LockKind, timeout: Option<int>)
  {
    match kind
    case Manual => timeout.None?
    case Timer => timeout.Some? && timeout.value != ZERO_TIME && now <= timeout.value
  }

  predicate ValidPrivateContest(now: int, c: Contest)
  {
    && c.lockId.None? && c.startTime.Some?
    && now + MINUTE <= c.startTime.value < c.endTime
    && !c.published
  }

  predicate ValidPublicContest(now: int, c: Contest, lock: Lock, users: nat)
  {
    && c.startTime.None?
    && lock.kind == Timer && lock.timeout.Some?
    && now + DAY <= lock.timeout.value
    && lock.timeout.value + 5 * MINUTE <= c.endTime
    && !(c.published && users > 0)
  }

  /** One fetched contest may be put into a round. */
  predicate ValidRoundContest(now: int, locks: map<LockId, Lock>, c: Contest)
  {
    && c.lockId.Some? && LockTimeout(locks, c).Some?
    && FetchedStart(locks, c).Some? && now <= FetchedStart(locks, c).value
    && !c.published
  }

  predicate ValidRoundLock(locks: map<LockId, Lock>, l: Option<LockId>)
  {
    l.Some? && l.value in locks && locks[l.value].kind == Manual
  }

  ghost predicate MayCreateRound(s: Store, t: TournamentId, roundLock: Option<LockId>)
  {
    t in s.tournaments && LatestRoundEndTime(s, t) <= s.now && ValidRoundLock(s.locks, roundLock)
  }

  // ---- Calls ----

  ghost predicate Accepts(s: Store, call: Call)
  {
    match call
    case Tick(_) => true
    case CreateLock(id, kind, timeout) => id !in s.locks && ValidLock(s.now, kind, timeout)
    case UpdateLock(id, kind, timeout) =>
      id in s.locks && s.locks[id].kind == kind == Manual && timeout.None?
    case DeleteLock(id) =>
      id in s.locks && s.locks[id].kind == Manual && forall c :: c in s.contests ==> s.contests[c].lockId != Some(id)
    case CreateContest(id, row, users) =>
      && id !in s.contests && id != NIL_ID
      && (if row.lockId.None? then ValidPrivateContest(s.now, row)
          else row.lockId.value in s.locks && ValidPublicContest(s.now, row, s.locks[row.lockId.value], users))
    case UpdateContest(id, target, row) =>
      && (id in s.contests ==> s.contests[id].lockId.None? && s.contests[id].startTime.Some?)
      && ValidPrivateContest(s.now, row)
      && target in s.contests && (target == NIL_ID || target == id)
    case DeleteContest(id) =>
      && id in s.contests && s.contests[id].lockId.None?
      && s.contests[id].startTime.Some? && s.now <= s.contests[id].startTime.value
      && forall p :: p in s.roundContests ==> p.1 != id
    case CreateTournament(t) => t !in s.tournaments
    case CreateRound(t, roundLock) =>
      MayCreateRound(s, t, roundLock) && RoundKey(t, Rounds(s, t) + 1) !in s.rounds
    case ChangeContests(t, number, ids) =>
      && t in s.tournaments && RoundNumbers(s, t) != {} && number == Rounds(s, t)
      && |ids| <= MAX_PAGE_SIZE
      && (forall id :: id in Fetched(s, ids) ==> ValidRoundContest(s.now, s.locks, s.contests[id]))
      && |Fetched(s, ids)| == |ids|
    case BeginRound(creator, t, roundLock) => creator !in s.creators && MayCreateRound(s, t, roundLock)
    case InsertRound(creator) => creator in s.creators && s.creators[creator] !in s.rounds
  }

  ghost function Step(s: Store, call: Call): Store
  {
    if !Accepts(s, call) then (if call.InsertRound? then s.(creators := s.creators - {call.creator}) else s)
    else
      match call
      case Tick(elapsed) => s.(now := s.now + elapsed)
      case CreateLock(id, kind, timeout) => s.(locks := s.locks[id := Lock(kind, timeout)])
      case UpdateLock(id, kind, timeout) => s.(locks := s.locks[id := Lock(kind, timeout)])
      case DeleteLock(id) => s.(locks := s.locks - {id})
      case CreateContest(id, row, _) => s.(contests := s.contests[id := row])
      case UpdateContest(_, target, row) =>
        s.(contests := s.contests[target := s.contests[target].(startTime := row.startTime, endTime := row.endTime)])
      case DeleteContest(id) => s.(contests := s.contests - {id})
      case CreateTournament(t) => s.(tournaments := s.tournaments + {t})
      case CreateRound(t, _) => s.(rounds := s.rounds + {RoundKey(t, Rounds(s, t) + 1)})
      case ChangeContests(t, _, ids) =>
        s.(roundContests := WithContests(s.roundContests, LatestRound(s, t), Fetched(s, ids)))
      case BeginRound(creator, t, _) => s.(creators := s.creators[creator := RoundKey(t, Rounds(s, t) + 1)])
      case InsertRound(creator) =>
        s.(rounds := s.rounds + {s.creators[creator]}, creators := s.creators - {creator})
  }

  /** The links of one round replaced. */
  function WithContests(links: set<(RoundKey, ContestId)>, key: RoundKey, ids: set<ContestId>): set<(RoundKey, ContestId)>
  {
    (set p | p in links && p.0 != key) + (set id | id in ids :: (key, id))
  }

  ghost function Run(s: Store, calls: seq<Call>): Store
    decreases |calls|
  {
    if calls == [] then s else Run(Step(s, calls[0]), calls[1..])
  }

  function Empty(now: int): Store { Store(now, map[], map[], {}, {}, {}, map[]) }
}

/** What the tables can never show. */
module TournamentTimeline {
  import opened Options
  import opened TournamentModel

  // ---- Round numbers ----

  ghost predicate NumbersContiguous(s: Store, t: TournamentId)
  {
    forall n :: RoundKey(t, n) in s.rounds <==> 1 <= n <= Rounds(s, t)
  }

  ghost predicate Numbered(s: Store)
  {
    && (forall t :: NumbersContiguous(s, t))
    && (forall c :: c in s.creators ==> 1 <= s.creators[c].number <= Rounds(s, s.creators[c].tournament) + 1)
  }

  lemma RoundsIsGreatest(s: Store, t: TournamentId, m: int)
    requires forall n :: RoundKey(t, n) in s.rounds <==> 1 <= n <= m
    requires 0 <= m
    ensures Rounds(s, t) == m
  {
    if m > 0 {
      assert RoundKey(t, m) in s.rounds;
      assert m in RoundNumbers(s, t);
    }
    forall n | n in RoundNumbers(s, t) ensures n <= m {
      assert RoundKey(t, n) in s.rounds;
    }
  }

  lemma RoundsNonNegative(s: Store, t: TournamentId)
    requires NumbersContiguous(s, t)
    ensures 0 <= Rounds(s, t)
  {
    assert RoundNumbers(s, t) != {} ==> RoundKey(t, Rounds(s, t)) in s.rounds;
  }

  /** Inserting the round after the last keeps the numbering and raises the count by one. */
  lemma InsertNext(s: Store, n: Store, t: TournamentId)
    requires NumbersContiguous(s, t)
    requires n.rounds == s.rounds + {RoundKey(t, Rounds(s, t) + 1)}
    ensures Rounds(n, t) == Rounds(s, t) + 1 && NumbersContiguous(n, t)
  {
    RoundsNonNegative(s, t);
    RoundsIsGreatest(n, t, Rounds(s, t) + 1);
  }

  lemma OtherRoundsSame(s: Store, n: Store, u: TournamentId)
    requires forall k :: k in n.rounds && k.tournament == u <==> k in s.rounds && k.tournament == u
    ensures Rounds(n, u) == Rounds(s, u)
    ensures NumbersContiguous(s, u) ==> NumbersContiguous(n, u)
  {
    assert RoundNumbers(n, u) == RoundNumbers(s, u);
  }

  /** The round a call inserts, if it inserts one. */
  ghost function Inserted(s: Store, call: Call): set<RoundKey>
  {
    if !Accepts(s, call) then {}
    else if call.CreateRound? then {RoundKey(call.tournament, Rounds(s, call.tournament) + 1)}
    else if call.InsertRound? then {s.creators[call.creator]}
    else {}
  }

  /** The uniqueness constraint lets only the next number through, however old the number read was. */
  lemma OnlyNextIsInserted(s: Store, call: Call, key: RoundKey)
    requires Numbered(s) && key in Inserted(s, call)
    ensures key.number == Rounds(s, key.tournament) + 1
    ensures key !in s.rounds
  {
    assert NumbersContiguous(s, key.tournament);
  }

  lemma StepKeepsNumbered(s: Store, call: Call)
    requires Numbered(s)
    ensures Numbered(Step(s, call))
    ensures forall t :: Rounds(s, t) <= Rounds(Step(s, call), t)
  {
    var n := Step(s, call);
    assert n.rounds == s.rounds + Inserted(s, call);
    forall t ensures NumbersContiguous(n, t) && Rounds(s, t) <= Rounds(n, t) {
      assert NumbersContiguous(s, t);
      if next :| next in Inserted(s, call) && next.tournament == t {
        OnlyNextIsInserted(s, call, next);
        InsertNext(s, n, t);
      } else {
        OtherRoundsSame(s, n, t);
      }
    }
    CreatorsStayClose(s, call);
  }

  lemma CreatorsStayClose(s: Store, call: Call)
    requires Numbered(s)
    requires forall t :: Rounds(s, t) <= Rounds(Step(s, call), t)
    ensures var n := Step(s, call);
            forall c :: c in n.creators ==> 1 <= n.creators[c].number <= Rounds(n, n.creators[c].tournament) + 1
  {
    var n := Step(s, call);
    forall c | c in n.creators ensures 1 <= n.creators[c].number <= Rounds(n, n.creators[c].tournament) + 1 {
      assert NumbersContiguous(s, n.creators[c].tournament);
      RoundsNonNegative(s, n.creators[c].tournament);
    }
  }

  /** However many creators interleave, a tournament's round numbers are exactly 1..Rounds. */
  lemma {:induction false} RoundNumbersContiguous(s: Store, calls: seq<Call>)
    requires Numbered(s)
    ensures Numbered(Run(s, calls))
    decreases |calls|
  {
    if calls != [] {
      StepKeepsNumbered(s, calls[0]);
      RoundNumbersContiguous(Step(s, calls[0]), calls[1..]);
    }
  }

  // ---- The timeline ----

  /** A contest whose times nobody can change any more: its start is the timeout of a timer lock. */
  ghost predicate Fixed(s: Store, id: ContestId)
  {
    && id in s.contests
    && var c := s.contests[id];
       && c.lockId.Some? && c.startTime.None?
       && c.lockId.value in s.locks
       && var l := s.locks[c.lockId.value];
          l.kind == Timer && l.timeout.Some? && l.timeout.value + 5 * MINUTE <= c.endTime
  }

  ghost function Start(s: Store, id: ContestId): int
    requires Fixed(s, id)
  {
    s.locks[s.contests[id].lockId.value].timeout.value
  }

  ghost function End(s: Store, id: ContestId): int
    requires Fixed(s, id)
  {
    s.contests[id].endTime
  }

  ghost predicate ContestsWellFormed(s: Store)
  {
    NIL_ID !in s.contests && forall id :: id in s.contests && s.contests[id].lockId.Some? ==> Fixed(s, id)
  }

  ghost predicate Linked(s: Store, key: RoundKey, id: ContestId) { (key, id) in s.roundContests }

  ghost predicate LinksWellFormed(s: Store)
  {
    forall key, id :: Linked(s, key, id) ==> Fixed(s, id) && key in s.rounds
  }

  /** Rounds that are not the latest have ended. */
  ghost predicate EarlierRoundsEnded(s: Store)
    requires LinksWellFormed(s)
  {
    forall key, id :: Linked(s, key, id) && key.number < Rounds(s, key.tournament) ==> End(s, id) <= s.now
  }

  ghost predicate RoundsDoNotOverlap(s: Store)
    requires LinksWellFormed(s)
  {
    forall key, id, later, id2 ::
      Linked(s, key, id) && Linked(s, later, id2) && key.tournament == later.tournament && key.number < later.number ==>
        End(s, id) <= Start(s, id2)
  }

  ghost predicate Ordered(s: Store)
  {
    Numbered(s) && ContestsWellFormed(s) && LinksWellFormed(s) && EarlierRoundsEnded(s) && RoundsDoNotOverlap(s)
  }

  /** The creation of a round as one call. */
  predicate Atomic(call: Call) { !call.BeginRound? && !call.InsertRound? }

  /** The second half of a creation goes through. */
  ghost predicate LateInsert(s: Store, call: Call) { call.InsertRound? && Accepts(s, call) }

  /** Contests with a lock keep it, and timer locks keep their timeout. */
  lemma StepKeepsFixed(s: Store, call: Call, id: ContestId)
    requires ContestsWellFormed(s) && Fixed(s, id)
    ensures Fixed(Step(s, call), id)
    ensures Start(Step(s, call), id) == Start(s, id) && End(Step(s, call), id) == End(s, id)
  {
  }

  lemma StepKeepsContests(s: Store, call: Call)
    requires ContestsWellFormed(s)
    ensures ContestsWellFormed(Step(s, call))
  {
    var n := Step(s, call);
    forall id | id in n.contests && n.contests[id].lockId.Some? ensures Fixed(n, id) {
      if id in s.contests {
        assert s.contests[id].lockId == n.contests[id].lockId;
        StepKeepsFixed(s, call, id);
      }
    }
  }

  /** A contest that is newly linked is fixed, belongs to the latest round, and has not started. */
  lemma NewLinks(s: Store, call: Call, key: RoundKey, id: ContestId)
    requires Ordered(s) && Linked(Step(s, call), key, id) && !Linked(s, key, id)
    ensures Fixed(s, id) && key in s.rounds && key.number == Rounds(s, key.tournament) && s.now <= Start(s, id)
  {
    assert call.ChangeContests? && key == LatestRound(s, call.tournament) && id in Fetched(s, call.ids);
    assert ValidRoundContest(s.now, s.locks, s.contests[id]);
    var k :| k in s.rounds && k.tournament == key.tournament;
    assert NumbersContiguous(s, key.tournament);
  }

  lemma StepKeepsLinks(s: Store, call: Call)
    requires Ordered(s)
    ensures LinksWellFormed(Step(s, call))
  {
    var n := Step(s, call);
    forall key, id | Linked(n, key, id) ensures Fixed(n, id) && key in n.rounds {
      if !Linked(s, key, id) {
        NewLinks(s, call, key, id);
      }
      StepKeepsFixed(s, call, id);
    }
  }

  /** The check at creation covers the round that stops being the latest. */
  lemma CreationWaitsForTheLatest(s: Store, t: TournamentId, key: RoundKey, id: ContestId)
    requires LinksWellFormed(s) && LatestRoundEndTime(s, t) <= s.now
    requires Linked(s, key, id) && key == LatestRound(s, t)
    ensures End(s, id) <= s.now
  {
    assert (key, id) in s.roundContests && s.contests[id].endTime in LatestRoundEnds(s, t);
  }

  lemma StepKeepsEarlierEnded(s: Store, call: Call)
    requires Ordered(s) && !LateInsert(s, call)
    requires LinksWellFormed(Step(s, call))
    ensures EarlierRoundsEnded(Step(s, call))
  {
    var n := Step(s, call);
    StepKeepsNumbered(s, call);
    forall key, id | Linked(n, key, id) && key.number < Rounds(n, key.tournament) ensures End(n, id) <= n.now {
      EarlierLinkEnded(s, call, key, id);
    }
  }

  lemma EarlierLinkEnded(s: Store, call: Call, key: RoundKey, id: ContestId)
    requires Ordered(s) && !LateInsert(s, call) && LinksWellFormed(Step(s, call))
    requires Linked(Step(s, call), key, id) && key.number < Rounds(Step(s, call), key.tournament)
    ensures End(Step(s, call), id) <= Step(s, call).now
  {
    LinkWasFixed(s, call, key, id);
    StepKeepsFixed(s, call, id);
    if key.number >= Rounds(s, key.tournament) {
      OnlyCreationRaises(s, call, key);
      CreationWaitsForTheLatest(s, key.tournament, key, id);
    } else if !Linked(s, key, id) {
      NewLinks(s, call, key, id);
    }
  }

  lemma OnlyCreationRaises(s: Store, call: Call, key: RoundKey)
    requires Numbered(s) && !LateInsert(s, call) && key in s.rounds
    requires Rounds(s, key.tournament) <= key.number < Rounds(Step(s, call), key.tournament)
    ensures call.CreateRound? && Accepts(s, call) && call.tournament == key.tournament
    ensures key == LatestRound(s, key.tournament)
  {
    var n := Step(s, call);
    assert n.rounds == s.rounds + Inserted(s, call);
    if !(call.CreateRound? && Accepts(s, call) && call.tournament == key.tournament) {
      OtherRoundsSame(s, n, key.tournament);
    }
    assert NumbersContiguous(s, key.tournament);
  }

  lemma StepKeepsNoOverlap(s: Store, call: Call)
    requires Ordered(s) && LinksWellFormed(Step(s, call))
    ensures RoundsDoNotOverlap(Step(s, call))
  {
    var n := Step(s, call);
    forall key, id, later, id2 |
      Linked(n, key, id) && Linked(n, later, id2) && key.tournament == later.tournament && key.number < later.number
      ensures End(n, id) <= Start(n, id2)
    {
      LinkWasFixed(s, call, key, id);
      LinkWasFixed(s, call, later, id2);
      StepKeepsFixed(s, call, id);
      StepKeepsFixed(s, call, id2);
      assert NumbersContiguous(s, key.tournament);
      if Linked(s, key, id) && !Linked(s, later, id2) {
        NewLinks(s, call, later, id2);
      }
      if !Linked(s, key, id) {
        NewLinks(s, call, key, id);
        if !Linked(s, later, id2) { NewLinks(s, call, later, id2); }
      }
    }
  }

  lemma LinkWasFixed(s: Store, call: Call, key: RoundKey, id: ContestId)
    requires Ordered(s) && Linked(Step(s, call), key, id)
    ensures Fixed(s, id) && key in s.rounds
  {
    if !Linked(s, key, id) { NewLinks(s, call, key, id); }
  }

  /** A round is inserted only after every contest of the round before it has ended. */
  ghost predicate Timely(s: Store, call: Call)
  {
    LateInsert(s, call) ==>
      forall id :: Linked(s, LatestRound(s, s.creators[call.creator].tournament), id) && Fixed(s, id) ==> End(s, id) <= s.now
  }

  ghost predicate AllTimely(s: Store, calls: seq<Call>)
    decreases |calls|
  {
    calls == [] || (Timely(s, calls[0]) && AllTimely(Step(s, calls[0]), calls[1..]))
  }

  /** Round creation split in two: the second half keeps earlier rounds ended exactly when the check of the first
      half would pass again. */
  lemma LateInsertKeepsOrderIff(s: Store, call: Call)
    requires Ordered(s) && LateInsert(s, call)
    ensures LinksWellFormed(Step(s, call)) && (EarlierRoundsEnded(Step(s, call)) <==> Timely(s, call))
  {
    var t, n := s.creators[call.creator].tournament, Step(s, call);
    StepKeepsLinks(s, call);
    OnlyNextIsInserted(s, call, s.creators[call.creator]);
    assert NumbersContiguous(s, t);
    InsertNext(s, n, t);
    forall key, id | Linked(n, key, id) ensures End(n, id) == End(s, id) && Linked(s, key, id) {
      StepKeepsFixed(s, call, id);
    }
    forall u | u != t ensures Rounds(n, u) == Rounds(s, u) {
      OtherRoundsSame(s, n, u);
    }
    if Timely(s, call) {
      forall key, id | Linked(n, key, id) && key.number < Rounds(n, key.tournament) ensures End(n, id) <= n.now {
        assert Linked(s, key, id);
        assert key.tournament == t && key.number == Rounds(s, t) ==> key == LatestRound(s, t);
      }
    }
    if EarlierRoundsEnded(n) {
      forall id | Linked(s, LatestRound(s, t), id) ensures End(s, id) <= s.now {
        assert Linked(n, LatestRound(s, t), id);
      }
    }
  }

  /** A call keeps the tables in order exactly when it is timely. */
  lemma StepKeepsOrderedIff(s: Store, call: Call)
    requires Ordered(s)
    ensures Ordered(Step(s, call)) <==> Timely(s, call)
  {
    StepKeepsNumbered(s, call);
    StepKeepsContests(s, call);
    StepKeepsLinks(s, call);
    StepKeepsNoOverlap(s, call);
    if LateInsert(s, call) {
      LateInsertKeepsOrderIff(s, call);
    } else {
      StepKeepsEarlierEnded(s, call);
    }
  }

  ghost predicate OrderedThroughout(s: Store, calls: seq<Call>)
    decreases |calls|
  {
    Ordered(s) && (calls == [] || OrderedThroughout(Step(s, calls[0]), calls[1..]))
  }

  /** With the split creation included, a run goes through tables in order all the way exactly when each of its
      inserts waits for the end of the round before. */
  lemma {:induction false} TimelineOrderedIff(s: Store, calls: seq<Call>)
    requires Ordered(s)
    ensures OrderedThroughout(s, calls) <==> AllTimely(s, calls)
    ensures AllTimely(s, calls) ==> Ordered(Run(s, calls))
    decreases |calls|
  {
    if calls != [] {
      var n := Step(s, calls[0]);
      StepKeepsOrderedIff(s, calls[0]);
      if Ordered(n) {
        TimelineOrderedIff(n, calls[1..]);
      }
    }
  }

  lemma {:induction false} AtomicCallsAreTimely(s: Store, calls: seq<Call>)
    requires forall c :: c in calls ==> Atomic(c)
    ensures AllTimely(s, calls)
    decreases |calls|
  {
    if calls != [] {
      assert calls[0] in calls;
      AtomicCallsAreTimely(Step(s, calls[0]), calls[1..]);
    }
  }

  lemma EmptyIsOrdered(now: int)
    ensures Ordered(Empty(now))
  {
    var s := Empty(now);
    forall t ensures NumbersContiguous(s, t) {
      assert RoundNumbers(s, t) == {};
    }
  }

  /** In every store that timely calls can produce, rounds of a tournament follow one another in time, so no contest
      is in two of them. */
  lemma TimelyRoundsNeverOverlap(now: int, calls: seq<Call>)
    requires AllTimely(Empty(now), calls)
    ensures var s := Run(Empty(now), calls);
            && LinksWellFormed(s) && RoundsDoNotOverlap(s)
            && (forall key, later, id :: Linked(s, key, id) && Linked(s, later, id) && key.tournament == later.tournament ==>
                  key == later)
            && (forall t :: NumbersContiguous(s, t))
  {
    EmptyIsOrdered(now);
    TimelineOrderedIff(Empty(now), calls);
    var s := Run(Empty(now), calls);
    forall key, later, id | Linked(s, key, id) && Linked(s, later, id) && key.tournament == later.tournament
      ensures key == later
    {
      assert Start(s, id) < End(s, id);
    }
  }

  /** When each service call is one step, that is every store there is. */
  lemma RoundsNeverOverlap(now: int, calls: seq<Call>)
    requires forall c :: c in calls ==> Atomic(c)
    ensures var s := Run(Empty(now), calls);
            && LinksWellFormed(s) && RoundsDoNotOverlap(s)
            && (forall key, later, id :: Linked(s, key, id) && Linked(s, later, id) && key.tournament == later.tournament ==>
                  key == later)
            && (forall t :: NumbersContiguous(s, t))
  {
    AtomicCallsAreTimely(Empty(now), calls);
    TimelyRoundsNeverOverlap(now, calls);
  }

  /** The two halves of a creation with nothing in between are the creation in one step. */
  lemma HalvesMakeACreation(s: Store, creator: CreatorId, t: TournamentId, roundLock: Option<LockId>)
    requires creator !in s.creators && Numbered(s)
    ensures Step(Step(s, BeginRound(creator, t, roundLock)), InsertRound(creator)) == Step(s, CreateRound(t, roundLock))
  {
    assert NumbersContiguous(s, t);
    assert s.creators[creator := RoundKey(t, Rounds(s, t) + 1)] - {creator} == s.creators;
    assert s.creators - {creator} == s.creators;
  }

  /** One tournament with one empty round; two contests whose times intersect; a creator who may have checked. */
  function Example(second: bool, links: set<(RoundKey, ContestId)>, checked: bool): Store
  {
    Store(
      0,
      map[10 := Lock(Timer, Some(100000)), 11 := Lock(Timer, Some(150000)), 12 := Lock(Manual, None)],
      map[1 := Contest(Some(10), None, 200000, false), 2 := Contest(Some(11), None, 250000, false)],
      {5},
      if second then {RoundKey(5, 1), RoundKey(5, 2)} else {RoundKey(5, 1)},
      links,
      if checked then map[7 := RoundKey(5, 2)] else map[])
  }

  lemma ExampleRounds(second: bool, links: set<(RoundKey, ContestId)>, checked: bool)
    ensures var s := Example(second, links, checked);
            && Rounds(s, 5) == (if second then 2 else 1) && RoundNumbers(s, 5) != {}
            && (forall t :: NumbersContiguous(s, t))
  {
    var s := Example(second, links, checked);
    RoundsIsGreatest(s, 5, if second then 2 else 1);
    forall t ensures NumbersContiguous(s, t) {
      if t != 5 { RoundsIsGreatest(s, t, 0); }
    }
    assert 1 in RoundNumbers(s, 5);
  }

  lemma ExampleChecks()
    ensures var s, call := Example(false, {}, false), BeginRound(7, 5, Some(12));
            Ordered(s) && Accepts(s, call) && Step(s, call) == Example(false, {}, true)
  {
    var s := Example(false, {}, false);
    ExampleRounds(false, {}, false);
    assert LatestRoundEnds(s, 5) == {};
  }

  lemma ExampleChanges(second: bool, links: set<(RoundKey, ContestId)>, checked: bool)
    requires links == if second then {(RoundKey(5, 1), 1)} else {}
    ensures var n := if second then 2 else 1;
            var s, call := Example(second, links, checked), ChangeContests(5, n, [n]);
            Accepts(s, call) && Step(s, call) == s.(roundContests := links + {(RoundKey(5, n), n)})
  {
    var n := if second then 2 else 1;
    var s := Example(second, links, checked);
    assert Rounds(s, 5) == n && RoundNumbers(s, 5) != {} by { ExampleRounds(second, links, checked); }
    OneContestChanges(s, 5, n, n);
    assert WithContests(links, RoundKey(5, n), {n}) == links + {(RoundKey(5, n), n)};
  }

  lemma OneContestChanges(s: Store, t: TournamentId, number: int, id: ContestId)
    requires t in s.tournaments && RoundNumbers(s, t) != {} && Rounds(s, t) == number
    requires id in s.contests && ValidRoundContest(s.now, s.locks, s.contests[id])
    ensures var call := ChangeContests(t, number, [id]);
            && Accepts(s, call)
            && Step(s, call) == s.(roundContests := WithContests(s.roundContests, RoundKey(t, number), {id}))
  {
    assert Fetched(s, [id]) == {id};
  }

  lemma ExampleInserts(links: set<(RoundKey, ContestId)>)
    ensures var s, call := Example(false, links, true), InsertRound(7);
            Accepts(s, call) && Step(s, call) == Example(true, links, false)
  {
  }

  /** A creation interleaved with a change of contests does produce overlapping rounds: from a store in order,
      four accepted calls lead to one that is not. */
  lemma InterleavedCreationOverlaps()
    ensures var s0 := Example(false, {}, false);
            var check, fill := BeginRound(7, 5, Some(12)), ChangeContests(5, 1, [1]);
            var insert, fillNext := InsertRound(7), ChangeContests(5, 2, [2]);
            var s1 := Step(s0, check);
            var s2 := Step(s1, fill);
            var s3 := Step(s2, insert);
            var s4 := Step(s3, fillNext);
            && Ordered(s0) && Accepts(s0, check) && Accepts(s1, fill) && Accepts(s2, insert) && Accepts(s3, fillNext)
            && LinksWellFormed(s4) && !RoundsDoNotOverlap(s4)
  {
    var first, both := {(RoundKey(5, 1), 1)}, {(RoundKey(5, 1), 1), (RoundKey(5, 2), 2)};
    ExampleChecks();
    ExampleChanges(false, {}, true);
    assert {} + first == first && first + {(RoundKey(5, 2), 2)} == both;
    ExampleInserts(first);
    ExampleChanges(true, first, false);
    ExampleOverlaps(both);
  }

  lemma ExampleOverlaps(both: set<(RoundKey, ContestId)>)
    requires both == {(RoundKey(5, 1), 1), (RoundKey(5, 2), 2)}
    ensures LinksWellFormed(Example(true, both, false)) && !RoundsDoNotOverlap(Example(true, both, false))
  {
    var s := Example(true, both, false);
    assert Linked(s, RoundKey(5, 1), 1) && Linked(s, RoundKey(5, 2), 2) && End(s, 1) > Start(s, 2);
  }
}
