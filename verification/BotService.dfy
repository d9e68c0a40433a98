/** The bot manager as the program has it: maps it rewrites. */
module BotService {
  import opened Filtering
  import opened Options
  import opened Sorting
  import opened BotModel
  import opened BotPartition
  import opened BotRotation

  class BotManager {
    var distribution: Distribution
    var monitors: set<Bot>

    constructor ()
      ensures distribution == map[] && monitors == {}
    {
      distribution, monitors := map[], {};
    }

    /** Moves the slave's pointer on to its next bot. */
    method GetBot(slave: SlaveId) returns (answer: Answer)
      requires Pointing(distribution)
      modifies this`distribution
      ensures distribution == Step(old(distribution), Get(slave))
      ensures answer == AnswerTo(old(distribution), slave)
      ensures answer.NotFound? <==> slave !in old(distribution)
      ensures answer.NoBots? <==> slave in old(distribution) && |old(distribution)[slave].bots| == 0
      ensures answer.Handed? ==>
                var bots, next := old(distribution)[slave].bots, (old(distribution)[slave].lastUsed + 1) % |old(distribution)[slave].bots|;
                answer.bot == bots[next] && distribution == old(distribution)[slave := SlaveDist(bots, next)]
      ensures !answer.Handed? ==> distribution == old(distribution)
      ensures Pointing(distribution)
    {
      if slave !in distribution {
        return NotFound;
      }
      var sdist := distribution[slave];
      if |sdist.bots| == 0 {
        return NoBots;
      }
      sdist := sdist.(lastUsed := (sdist.lastUsed + 1) % |sdist.bots|);
      var nextBot := sdist.bots[sdist.lastUsed];
      distribution := distribution[slave := sdist];
      answer := Handed(nextBot);
    }

    /** Walks the map in any order. */
    method DeleteBotFromDist(bot: Bot)
      modifies this`distribution
      ensures distribution == Deleted(old(distribution), bot)
      ensures DeletedExactly(old(distribution), distribution, bot)
    {
      DeletionEverywhere(distribution, bot);
      var left := distribution.Keys;
      while left != {}
        invariant left <= distribution.Keys == old(distribution).Keys
        invariant forall s :: s in left ==> distribution[s] == old(distribution)[s]
        invariant forall s :: s in distribution && s !in left ==> distribution[s] == Deleted(old(distribution), bot)[s]
        decreases left
      {
        var s :| s in left;
        left := left - {s};
        distribution := distribution[s := distribution[s].(bots := WithoutBot(distribution[s].bots, bot))];
      }
    }

    /** `stopped`: the bot's monitor was told to stop. */
    method HandleCorruptedBot(bot: Bot) returns (stopped: bool)
      modifies this`distribution
      ensures distribution == Step(old(distribution), Delete(bot))
      ensures DeletedExactly(old(distribution), distribution, bot)
      ensures stopped <==> bot in monitors
    {
      DeleteBotFromDist(bot);
      stopped := bot in monitors;
    }

    /** The monitors of bots that are gone are told to stop, the others to stay; new bots get a monitor. */
    method SignalMonitors(bots: seq<Bot>) returns (stopped: set<Bot>, kept: set<Bot>)
      modifies this`monitors
      ensures stopped == old(monitors) - ToSet(bots) && kept == old(monitors) * ToSet(bots)
      ensures monitors == old(monitors) + ToSet(bots)
    {
      stopped, kept := {}, {};
      var left := monitors;
      while left != {}
        invariant left <= monitors == old(monitors)
        invariant stopped == (monitors - left) - ToSet(bots) && kept == (monitors - left) * ToSet(bots)
        decreases left
      {
        var bot: Bot :| bot in left;
        left := left - {bot};
        if bot in bots {
          kept := kept + {bot};
        } else {
          stopped := stopped + {bot};
        }
      }
      for n := 0 to |bots|
        invariant monitors == old(monitors) + ToSet(bots[..n])
      {
        assert bots[..n + 1] == bots[..n] + [bots[n]];
        if bots[n] !in monitors {
          monitors := monitors + {bots[n]};
        }
      }
      assert bots[..|bots|] == bots;
    }

    /** The records of the slaves on the list start empty; last used bots leave `allBots` for the old records. */
    method TakeLastUsed(bots: set<Bot>, slaves: seq<SlaveId>) returns (curDist: Distribution, allBots: set<Bot>)
      requires HeldAtMostOnce(distribution)
      requires forall i, j :: 0 <= i < j < |slaves| ==> slaves[i] != slaves[j]
      modifies this`distribution
      ensures curDist.Keys == ToSet(slaves)
      ensures forall s :: s in curDist ==> curDist[s] == SlaveDist([], -1)
      ensures allBots == bots - Taken(old(distribution), ToSet(slaves), bots)
      ensures forall b :: b in allBots <==> b in bots && !exists s :: s in slaves && WasLast(old(distribution), s, b)
    {
      curDist, allBots := map[], bots;
      ghost var before := distribution;
      for n := 0 to |slaves|
        invariant curDist.Keys == ToSet(slaves[..n])
        invariant forall s :: s in curDist ==> curDist[s] == SlaveDist([], -1)
        invariant allBots == bots - Taken(before, ToSet(slaves[..n]), bots)
        invariant distribution.Keys == before.Keys
        invariant forall s :: s in distribution && s !in slaves[..n] ==> distribution[s] == before[s]
      {
        assert slaves[..n + 1] == slaves[..n] + [slaves[n]];
        ghost var done := ToSet(slaves[..n]);
        assert ToSet(slaves[..n + 1]) == done + {slaves[n]};
        assert slaves[n] !in slaves[..n];
        TakenGrows(before, done, slaves[n], bots);
        var slave := slaves[n];
        curDist := curDist[slave := SlaveDist([], -1)];
        if slave in distribution {
          var sdist := distribution[slave];
          if 0 <= sdist.lastUsed < |sdist.bots| {
            var prevBot := sdist.bots[sdist.lastUsed];
            assert LastUsed(before[slave]) == Some(prevBot);
            NotTakenByOthers(before, done, slave, bots, prevBot);
            if prevBot in allBots {
              distribution := distribution[slave := SlaveDist([prevBot], 0)];
              allBots := allBots - {prevBot};
            }
          }
        }
      }
      assert slaves[..|slaves|] == slaves;
      TakenWereLast(before, slaves, bots);
    }

    /** Gives bots from position `start` on until the quota is reached or none is left. */
    static method Deal(quota: nat, rem: seq<Bot>, start: nat) returns (given: seq<Bot>, next: nat)
      requires start <= |rem|
      ensures next == start + Share([], quota, rem[start..]) && given == rem[start..next]
    {
      given, next := [], start;
      while |given| < quota && next < |rem|
        invariant start <= next <= |rem|
        invariant given == rem[start..next] && |given| <= quota
      {
        given := given + [rem[next]];
        next := next + 1;
      }
    }

    /** Walks the new map and the remaining bots in any order. */
    static method Distribute(curDist: Distribution, quota: nat, allBots: set<Bot>)
      returns (dealt: Distribution, ghost order: seq<SlaveId>, ghost remBots: seq<Bot>)
      requires forall s :: s in curDist ==> curDist[s] == SlaveDist([], -1)
      ensures |order| == |curDist.Keys| && dealt.Keys == curDist.Keys
      ensures Lists(remBots, allBots)
      ensures Deals(dealt, order, Filled(Empties(|order|), quota, remBots))
    {
      var rem := Listed(allBots);
      remBots := rem;
      var slaves := Listed(curDist.Keys);
      order := slaves;
      ListLength(slaves, curDist.Keys);
      dealt := curDist;
      var i: nat := 0;
      ghost var lists: seq<seq<Bot>> := [];
      for n := 0 to |slaves|
        invariant i <= |rem| && |lists| == n
        invariant DealtSoFar(dealt, slaves, lists)
        invariant lists + Filled(Empties(|slaves| - n), quota, rem[i..]) == Filled(Empties(|slaves|), quota, rem)
      {
        var slave := slaves[n];
        var given, next := Deal(quota, rem, i);
        FilledStep(lists, |slaves| - n, quota, rem, i, next);
        DealtNext(dealt, slaves, lists, given);
        dealt := dealt[slave := dealt[slave].(bots := dealt[slave].bots + given)];
        lists := lists + [given];
        i := next;
      }
      assert Empties(0) == [];
    }

    method RefreshBots(bots: seq<Bot>, slaves: seq<SlaveId>)
      returns (ghost order: seq<SlaveId>, ghost remBots: seq<Bot>)
      requires HeldAtMostOnce(distribution)
      requires forall i, j :: 0 <= i < j < |bots| ==> bots[i] != bots[j]
      requires forall i, j :: 0 <= i < j < |slaves| ==> slaves[i] != slaves[j]
      modifies this
      ensures monitors == old(monitors) + ToSet(bots)
      ensures distribution.Keys == ToSet(slaves)
      ensures Refreshes(old(distribution), distribution, ToSet(bots), ToSet(slaves))
      ensures bots == [] ==> forall s :: s in distribution ==> distribution[s] == SlaveDist([], 0)
      ensures bots != [] && slaves != [] ==>
                && |order| == |slaves|
                && Lists(remBots, ToSet(bots) - Taken(old(distribution), ToSet(slaves), ToSet(bots)))
                && Deals(distribution, order, Filled(Empties(|order|), CeilDiv(|bots|, |slaves|), remBots))
      ensures Pointing(distribution) && HeldAtMostOnce(distribution)
      ensures bots != [] && slaves != [] ==>
                && (forall s :: s in distribution ==> distribution[s].lastUsed == -1)
                && (forall b: Bot :: Held(distribution, b) <==>
                      b in bots && !exists s :: s in slaves && WasLast(old(distribution), s, b))
    {
      order, remBots := [], [];
      var stopped, kept := SignalMonitors(bots);
      if |slaves| == 0 {
        distribution := map[];
        return;
      }
      if |bots| == 0 {
        distribution := map s | s in slaves :: SlaveDist([], 0);
        return;
      }
      assert bots[0] in ToSet(bots) && slaves[0] in ToSet(slaves);
      order, remBots := Redistribute(bots, slaves);
      RefreshedOnce(old(distribution), distribution, ToSet(bots), ToSet(slaves));
      TakenWereLast(old(distribution), slaves, ToSet(bots));
    }

    /** The rest of the refresh, when there are both bots and slaves. */
    method Redistribute(bots: seq<Bot>, slaves: seq<SlaveId>)
      returns (ghost order: seq<SlaveId>, ghost remBots: seq<Bot>)
      requires HeldAtMostOnce(distribution) && 0 < |bots| && 0 < |slaves|
      requires forall i, j :: 0 <= i < j < |bots| ==> bots[i] != bots[j]
      requires forall i, j :: 0 <= i < j < |slaves| ==> slaves[i] != slaves[j]
      modifies this`distribution
      ensures distribution.Keys == ToSet(slaves) && |order| == |slaves|
      ensures ToSet(slaves) != {} && DealsRest(old(distribution), distribution, order, remBots, ToSet(bots), ToSet(slaves))
      ensures Lists(remBots, ToSet(bots) - Taken(old(distribution), ToSet(slaves), ToSet(bots)))
      ensures Deals(distribution, order, Filled(Empties(|order|), CeilDiv(|bots|, |slaves|), remBots))
      ensures Pointing(distribution) && HeldAtMostOnce(distribution)
      ensures forall s :: s in distribution ==> distribution[s].lastUsed == -1
    {
      var botsPerSlave := (|bots| + |slaves| - 1) / |slaves|;
      var curDist, allBots := TakeLastUsed(ToSet(bots), slaves);
      ListLength(slaves, curDist.Keys);
      ListLength(bots, ToSet(bots));
      distribution, order, remBots := Distribute(curDist, botsPerSlave, allBots);
      assert HeldAtMostOnce(distribution) by {
        ghost var taken := Taken(old(distribution), ToSet(slaves), ToSet(bots));
        RefreshHoldsTheRest(distribution, order, remBots, ToSet(bots), taken);
      }
      assert Pointing(distribution) && forall s :: s in distribution ==> distribution[s].lastUsed == -1 by {
        DealtPoints(distribution, order, Filled(Empties(|order|), botsPerSlave, remBots));
      }
    }
  }

  /** The first slaves have their lists, the others nothing yet. */
  ghost predicate DealtSoFar(d: Distribution, slaves: seq<SlaveId>, lists: seq<seq<Bot>>)
  {
    && Lists(slaves, d.Keys) && |lists| <= |slaves|
    && (forall k :: 0 <= k < |lists| ==> d[slaves[k]] == SlaveDist(lists[k], -1))
    && (forall k :: |lists| <= k < |slaves| ==> d[slaves[k]] == SlaveDist([], -1))
  }

  lemma DealtNext(d: Distribution, slaves: seq<SlaveId>, lists: seq<seq<Bot>>, given: seq<Bot>)
    requires DealtSoFar(d, slaves, lists) && |lists| < |slaves|
    ensures var s := slaves[|lists|];
            s in d && DealtSoFar(d[s := d[s].(bots := d[s].bots + given)], slaves, lists + [given])
  {
    var s := slaves[|lists|];
    assert s in slaves;
    assert d[s].bots + given == given;
    assert d[s := d[s].(bots := given)].Keys == d.Keys;
  }

  lemma FilledStep(lists: seq<seq<Bot>>, m: nat, quota: nat, rem: seq<Bot>, start: nat, next: nat)
    requires 0 < m && start <= next <= |rem| && next == start + Share([], quota, rem[start..])
    ensures lists + Filled(Empties(m), quota, rem[start..])
         == (lists + [rem[start..next]]) + Filled(Empties(m - 1), quota, rem[next..])
  {
    assert Empties(m)[1..] == Empties(m - 1);
    assert rem[start..][..next - start] == rem[start..next] && rem[start..][next - start..] == rem[next..];
    assert Empties(m)[0] + rem[start..next] == rem[start..next];
  }

  lemma DealtPoints(d: Distribution, order: seq<SlaveId>, lists: seq<seq<Bot>>)
    requires Deals(d, order, lists)
    ensures Pointing(d) && forall s :: s in d ==> d[s].lastUsed == -1
  {
    forall s | s in d ensures d[s].lastUsed == -1 {
      assert s in order;
    }
  }

  /** The bot is gone from every list; every other entry is still there, in the old order, and pointers stay. */
  ghost predicate DeletedExactly(d: Distribution, n: Distribution, bot: Bot)
  {
    && n.Keys == d.Keys
    && forall s :: s in d ==>
         && n[s].lastUsed == d[s].lastUsed
         && (forall b: Bot :: multiset(n[s].bots)[b] == if b == bot then 0 else multiset(d[s].bots)[b])
         && InOrder(n[s].bots, d[s].bots)
  }

  lemma DeletionEverywhere(d: Distribution, bot: Bot)
    ensures DeletedExactly(d, Deleted(d, bot), bot)
  {
    forall s | s in d
      ensures forall b: Bot :: multiset(Deleted(d, bot)[s].bots)[b] == if b == bot then 0 else multiset(d[s].bots)[b]
      ensures InOrder(Deleted(d, bot)[s].bots, d[s].bots)
    {
      DeletionIsExact(d[s].bots, bot);
    }
  }

  /** The slave's pointer stands at the bot. */
  ghost predicate WasLast(d: Distribution, slave: SlaveId, bot: Bot)
  {
    slave in d && 0 <= d[slave].lastUsed < |d[slave].bots| && d[slave].bots[d[slave].lastUsed] == bot
  }

  lemma TakenWereLast(d: Distribution, slaves: seq<SlaveId>, bots: set<Bot>)
    ensures forall b :: b in Taken(d, ToSet(slaves), bots) <==> b in bots && exists s :: s in slaves && WasLast(d, s, b)
  {
    forall b: Bot ensures b in Taken(d, ToSet(slaves), bots) <==> b in bots && exists s :: s in slaves && WasLast(d, s, b) {
      if s :| s in slaves && WasLast(d, s, b) {
        assert b in bots ==> Took(d, s, bots, b);
      }
      if b in Taken(d, ToSet(slaves), bots) {
        var s :| s in ToSet(slaves) && Took(d, s, bots, b);
        assert WasLast(d, s, b);
      }
    }
  }

  method Listed(elements: set<nat>) returns (list: seq<nat>)
    ensures Lists(list, elements)
  {
    list := [];
    var left := elements;
    while left != {}
      invariant left <= elements && Lists(list, elements - left)
      decreases left
    {
      var x: nat :| x in left;
      left := left - {x};
      list := list + [x];
    }
  }

  /** One slave, one bot: a slave that has used its bot loses it in the next refresh. */
  lemma UsedBotIsLost(d: Distribution, order: seq<SlaveId>, rest: seq<Bot>)
    requires Lists(order, {1})
    requires Lists(rest, {7} - Taken(map[1 := SlaveDist([7], 0)], {1}, {7}))
    requires Deals(d, order, Filled(Empties(|order|), CeilDiv(1, 1), rest))
    ensures 1 in d && d[1].bots == []
  {
    assert LastUsed(SlaveDist([7], 0)) == Some(7);
    assert Took(map[1 := SlaveDist([7], 0)], 1, {7}, 7);
    assert Taken(map[1 := SlaveDist([7], 0)], {1}, {7}) == {7};
    ListLength(rest, {});
    assert 1 in order;
    var k :| 0 <= k < |order| && order[k] == 1;
    ListLength(order, {1});
    assert Empties(1)[0] == [];
    assert Share([], 1, rest) == 0;
  }
}
