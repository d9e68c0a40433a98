/** The contest, lock and tournament services over one set of tables. Each method answers whether the call went
    through; either way the tables change exactly as the timeline model says. */
module TournamentService {
  import opened Options
  import opened TournamentModel
  import opened TournamentTimeline

  lemma MaxOrIs(values: set<int>, default: int, m: int)
    requires m in values && forall v :: v in values ==> v <= m
    ensures MaxOr(values, default) == m
  {
    assert values != {};
  }

  ghost function Ids(ids: seq<ContestId>): set<ContestId> { set id | id in ids }

  lemma {:induction false} AtMostSoMany(ids: seq<ContestId>)
    ensures |Ids(ids)| <= |ids|
    ensures |Ids(ids)| == |ids| <==> forall i, j :: 0 <= i < j < |ids| ==> ids[i] != ids[j]
  {
    if ids == [] {
      assert Ids(ids) == {};
    } else {
      AtMostSoMany(ids[1..]);
      assert ids == [ids[0]] + ids[1..];
      assert Ids(ids) == Ids(ids[1..]) + {ids[0]};
    }
  }

  /** As many contests fetched as ids asked for: each id was asked for once and found. */
  lemma {:induction false} AllWereFetched(ids: seq<ContestId>, received: set<ContestId>)
    requires received <= Ids(ids) && |received| == |ids|
    ensures received == Ids(ids)
    ensures forall i, j :: 0 <= i < j < |ids| ==> ids[i] != ids[j]
  {
    AtMostSoMany(ids);
    var missing := Ids(ids) - received;
    assert Ids(ids) == received + missing && |Ids(ids)| == |received| + |missing|;
    assert missing == {};
  }

  class Services {
    var now: int
    var locks: map<LockId, Lock>
    var contests: map<ContestId, Contest>
    var tournaments: set<TournamentId>
    var rounds: set<RoundKey>
    var roundContests: set<(RoundKey, ContestId)>
    ghost var creators: map<CreatorId, RoundKey>

    ghost function State(): Store
      reads this
    {
      Store(now, locks, contests, tournaments, rounds, roundContests, creators)
    }

    /** The contest is there, timed by a lock and still ahead, or of its own start still ahead, and not published. */
    ghost predicate TimedAndAhead(id: ContestId)
      reads this
    {
      && id in contests && !contests[id].published
      && contests[id].lockId.Some? && contests[id].lockId.value in locks && locks[contests[id].lockId.value].timeout.Some?
      && now <= if contests[id].startTime.Some? then contests[id].startTime.value else locks[contests[id].lockId.value].timeout.value
    }

    constructor (start: int)
      ensures State() == Empty(start)
    {
      now, locks, contests, tournaments := start, map[], map[], {};
      rounds, roundContests, creators := {}, {}, map[];
    }

    method CreateLock(id: LockId, kind: LockKind, timeout: Option<int>) returns (ok: bool)
      requires id !in locks
      modifies this`locks
      ensures ok == Accepts(old(State()), Call.CreateLock(id, kind, timeout))
      ensures State() == Step(old(State()), Call.CreateLock(id, kind, timeout))
      ensures ok <==>
                || (kind == Manual && timeout.None?)
                || (kind == Timer && timeout.Some? && timeout.value != -62135596800 && now <= timeout.value)
      ensures locks == if ok then old(locks)[id := Lock(kind, timeout)] else old(locks)
    {
      ok := ValidLock(now, kind, timeout);
      if ok { locks := locks[id := Lock(kind, timeout)]; }
    }

    method UpdateLock(id: LockId, kind: LockKind, timeout: Option<int>) returns (ok: bool)
      modifies this`locks
      ensures ok == Accepts(old(State()), Call.UpdateLock(id, kind, timeout))
      ensures State() == Step(old(State()), Call.UpdateLock(id, kind, timeout))
      ensures ok <==> id in old(locks) && old(locks)[id].kind == Manual && kind == Manual && timeout.None?
      ensures locks == if ok then old(locks)[id := Lock(Manual, None)] else old(locks)
    {
      if id !in locks || locks[id].kind != kind || locks[id].kind == Timer {
        return false;
      }
      ok := ValidLock(now, kind, timeout);
      if ok { locks := locks[id := Lock(kind, timeout)]; }
    }

    method DeleteLock(id: LockId) returns (ok: bool)
      modifies this`locks
      ensures ok == Accepts(old(State()), Call.DeleteLock(id))
      ensures State() == Step(old(State()), Call.DeleteLock(id))
      ensures ok <==>
                && id in old(locks) && old(locks)[id].kind == Manual
                && forall c :: c in contests ==> contests[c].lockId != Some(id)
      ensures locks == if ok then old(locks) - {id} else old(locks)
    {
      if id !in locks || locks[id].kind == Timer {
        return false;
      }
      // the foreign key of the contests table
      ok := forall c | c in contests :: contests[c].lockId != Some(id);
      if ok { locks := locks - {id}; }
    }

    method CreateContest(id: ContestId, row: Contest, users: nat) returns (ok: bool)
      requires id !in contests && id != NIL_ID
      modifies this`contests
      ensures ok == Accepts(old(State()), Call.CreateContest(id, row, users))
      ensures State() == Step(old(State()), Call.CreateContest(id, row, users))
      ensures row.lockId.None? ==>
                (ok <==> row.startTime.Some? && now + 60 <= row.startTime.value < row.endTime && !row.published)
      ensures row.lockId.Some? ==>
                (ok <==> var lock := row.lockId.value;
                         && lock in locks && locks[lock].kind == Timer && locks[lock].timeout.Some? && row.startTime.None?
                         && now + 24 * 60 * 60 <= locks[lock].timeout.value
                         && locks[lock].timeout.value + 5 * 60 <= row.endTime
                         && (row.published ==> users == 0))
      ensures contests == if ok then old(contests)[id := row] else old(contests)
    {
      if row.lockId.None? {
        ok := ValidPrivateContest(now, row);
      } else if row.lockId.value !in locks {
        ok := false;
      } else {
        ok := ValidPublicContest(now, row, locks[row.lockId.value], users);
      }
      if ok { contests := contests[id := row]; }
    }

    /** The update statement names no id, so it looks for the row with the all-zero one. */
    method UpdateContest(id: ContestId, row: Contest) returns (ok: bool)
      modifies this`contests
      ensures ok == Accepts(old(State()), Call.UpdateContest(id, NIL_ID, row))
      ensures State() == Step(old(State()), Call.UpdateContest(id, NIL_ID, row))
      ensures ok <==>
                && (id in old(contests) ==> old(contests)[id].lockId.None? && old(contests)[id].startTime.Some?)
                && row.lockId.None? && row.startTime.Some? && !row.published
                && now + 60 <= row.startTime.value < row.endTime
                && NIL_ID in old(contests)
      ensures contests == if ok
                          then old(contests)[NIL_ID := old(contests)[NIL_ID].(startTime := row.startTime, endTime := row.endTime)]
                          else old(contests)
    {
      if id in contests && (contests[id].lockId.Some? || contests[id].startTime.None?) {
        return false;
      }
      ok := ValidPrivateContest(now, row) && NIL_ID in contests;
      if ok {
        contests := contests[NIL_ID := contests[NIL_ID].(startTime := row.startTime, endTime := row.endTime)];
      }
    }

    method DeleteContest(id: ContestId) returns (ok: bool)
      modifies this`contests
      ensures ok == Accepts(old(State()), Call.DeleteContest(id))
      ensures State() == Step(old(State()), Call.DeleteContest(id))
      ensures ok <==>
                && id in old(contests) && old(contests)[id].lockId.None?
                && old(contests)[id].startTime.Some? && now <= old(contests)[id].startTime.value
                && forall p :: p in roundContests ==> p.1 != id
      ensures contests == if ok then old(contests) - {id} else old(contests)
    {
      if id !in contests || contests[id].lockId.Some? || contests[id].startTime.None? || contests[id].startTime.value < now {
        return false;
      }
      // the foreign key of the tournament_contests table
      ok := forall p | p in roundContests :: p.1 != id;
      if ok { contests := contests - {id}; }
    }

    method CreateTournament(t: TournamentId) returns (ok: bool)
      modifies this`tournaments
      ensures ok == Accepts(old(State()), Call.CreateTournament(t))
      ensures State() == Step(old(State()), Call.CreateTournament(t))
      ensures tournaments == old(tournaments) + {t} && (ok <==> t !in old(tournaments))
    {
      ok := t !in tournaments;
      if ok { tournaments := tournaments + {t}; }
    }

    /** The aggregate over the rounds table: the greatest number, and whether there is any. */
    method LatestRoundNumber(t: TournamentId) returns (n: int, found: bool)
      ensures n == Rounds(State(), t)
      ensures found <==> RoundNumbers(State(), t) != {}
      ensures found <==> exists k :: k in rounds && k.tournament == t
      ensures found ==> RoundKey(t, n) in rounds
      ensures !found ==> n == 0
      ensures forall k :: k in rounds && k.tournament == t ==> k.number <= n
    {
      n, found := 0, false;
      var rest := rounds;
      while rest != {}
        invariant rest <= rounds
        invariant found ==> RoundKey(t, n) in rounds - rest
        invariant !found ==> n == 0
        invariant forall k :: k in rounds - rest && k.tournament == t ==> found && k.number <= n
        decreases rest
      {
        var k :| k in rest;
        if k.tournament == t && (!found || n < k.number) {
          n, found := k.number, true;
        }
        rest := rest - {k};
      }
      if found {
        assert n in RoundNumbers(State(), t);
        MaxOrIs(RoundNumbers(State(), t), 0, n);
      }
    }

    /** The latest end time among the contests of a round, or the epoch. */
    method RoundEndTime(t: TournamentId) returns (end: int)
      ensures end == LatestRoundEndTime(State(), t)
      ensures forall p :: p in roundContests && p.0 == RoundKey(t, Rounds(State(), t)) && p.1 in contests ==> contests[p.1].endTime <= end
      ensures || end == 0
              || exists p :: p in roundContests && p.0 == RoundKey(t, Rounds(State(), t)) && p.1 in contests && contests[p.1].endTime == end
    {
      var n, _ := LatestRoundNumber(t);
      var key, found := RoundKey(t, n), false;
      end := EPOCH;
      var rest := roundContests;
      while rest != {}
        invariant rest <= roundContests
        invariant found ==> exists p :: p in roundContests - rest && p.0 == key && p.1 in contests && contests[p.1].endTime == end
        invariant !found ==> end == EPOCH
        invariant forall p :: p in roundContests - rest && p.0 == key && p.1 in contests ==> found && contests[p.1].endTime <= end
        decreases rest
      {
        var p :| p in rest;
        if p.0 == key && p.1 in contests && (!found || end < contests[p.1].endTime) {
          end, found := contests[p.1].endTime, true;
        }
        rest := rest - {p};
      }
      if found {
        assert end in LatestRoundEnds(State(), t);
        MaxOrIs(LatestRoundEnds(State(), t), EPOCH, end);
      }
    }

    method CreateTournamentRound(t: TournamentId, roundLock: Option<LockId>) returns (ok: bool)
      modifies this`rounds
      ensures ok == Accepts(old(State()), CreateRound(t, roundLock))
      ensures State() == Step(old(State()), CreateRound(t, roundLock))
      ensures ok ==>
                && t in tournaments
                && roundLock.Some? && roundLock.value in locks && locks[roundLock.value].kind == Manual
                && (forall id :: (RoundKey(t, Rounds(old(State()), t)), id) in roundContests && id in contests ==>
                      contests[id].endTime <= now)
      ensures rounds == if ok then old(rounds) + {RoundKey(t, Rounds(old(State()), t) + 1)} else old(rounds)
      ensures old(Numbered(State())) && 0 <= now && t in tournaments
              && roundLock.Some? && roundLock.value in locks && locks[roundLock.value].kind == Manual
              && (forall id :: (RoundKey(t, Rounds(old(State()), t)), id) in roundContests && id in contests ==>
                    contests[id].endTime <= now)
              ==> ok
    {
      if t !in tournaments {
        return false;
      }
      var count, _ := LatestRoundNumber(t);
      var endTime := RoundEndTime(t);
      if now < endTime || !ValidRoundLock(locks, roundLock) {
        return false;
      }
      var key := RoundKey(t, count + 1);
      // the uniqueness constraint of the rounds table
      ok := key !in rounds;
      if ok { rounds := rounds + {key}; }
    }

    /** `validateTournamentContests`: every fetched contest, then the count. */
    method ValidateTournamentContests(requested: nat, received: set<ContestId>) returns (ok: bool)
      requires received <= contests.Keys
      ensures ok <==> |received| == requested && forall id :: id in received ==> ValidRoundContest(now, locks, contests[id])
      ensures ok ==> forall id :: id in received ==> TimedAndAhead(id)
      ensures |received| == requested && (forall id :: id in received ==> TimedAndAhead(id)) ==> ok
    {
      var rest := received;
      while rest != {}
        invariant rest <= received
        invariant forall id :: id in received - rest ==> ValidRoundContest(now, locks, contests[id])
        decreases rest
      {
        var id :| id in rest;
        if !ValidRoundContest(now, locks, contests[id]) {
          return false;
        }
        rest := rest - {id};
      }
      ok := |received| == requested;
    }

    method ChangeTournamentContests(t: TournamentId, number: int, ids: seq<ContestId>) returns (ok: bool)
      modifies this`roundContests
      ensures ok == Accepts(old(State()), ChangeContests(t, number, ids))
      ensures State() == Step(old(State()), ChangeContests(t, number, ids))
      ensures ok ==> forall id :: (RoundKey(t, number), id) in roundContests <==> id in ids
      ensures ok ==> forall key, id :: key != RoundKey(t, number) ==> ((key, id) in roundContests <==> (key, id) in old(roundContests))
      ensures !ok ==> roundContests == old(roundContests)
      ensures ok ==> (forall k :: k in rounds && k.tournament == t ==> k.number <= number) && RoundKey(t, number) in rounds
      ensures ok ==> (forall i, j :: 0 <= i < j < |ids| ==> ids[i] != ids[j]) && forall id :: id in ids ==> TimedAndAhead(id)
      ensures ok ==> t in tournaments && |ids| <= 10000
      ensures t in tournaments && RoundNumbers(State(), t) != {} && number == Rounds(State(), t) && |ids| <= 10000
              && (forall i, j :: 0 <= i < j < |ids| ==> ids[i] != ids[j]) && (forall id :: id in ids ==> TimedAndAhead(id))
              ==> ok
    {
      if t !in tournaments {
        return false;
      }
      var latest, found := LatestRoundNumber(t);
      if !found || latest != number || |ids| > MAX_PAGE_SIZE {
        return false;
      }
      var received := set id | id in ids && id in contests && FetchedStart(locks, contests[id]).Some?;
      assert received == Fetched(State(), ids);
      if (forall i, j :: 0 <= i < j < |ids| ==> ids[i] != ids[j]) && (forall id :: id in ids ==> TimedAndAhead(id)) {
        AtMostSoMany(ids);
        assert received == Ids(ids);
      }
      ok := ValidateTournamentContests(|ids|, received);
      if !ok {
        return;
      }
      AllWereFetched(ids, received);
      ReplaceContests(RoundKey(t, latest), received);
    }

    /** The rows of the round are deleted, then one row per contest is inserted. */
    method ReplaceContests(key: RoundKey, received: set<ContestId>)
      modifies this`roundContests
      ensures roundContests == WithContests(old(roundContests), key, received)
      ensures forall id :: (key, id) in roundContests <==> id in received
      ensures forall other, id :: other != key ==> ((other, id) in roundContests <==> (other, id) in old(roundContests))
    {
      roundContests := set p | p in roundContests && p.0 != key;
      ghost var kept := roundContests;
      var rest := received;
      while rest != {}
        invariant rest <= received
        invariant roundContests == kept + set id | id in received - rest :: (key, id)
        decreases rest
      {
        var id :| id in rest;
        roundContests := roundContests + {(key, id)};
        rest := rest - {id};
      }
      assert received - rest == received;
      assert roundContests == WithContests(old(roundContests), key, received);
    }
  }
}
