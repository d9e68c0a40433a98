/** Which slave may use which bots, and how they take turns. */
module BotModel {
  import opened Options
  import opened Filtering
  import opened Sorting

  type Bot = nat
  type SlaveId = nat

  datatype SlaveDist = SlaveDist(bots: seq<Bot>, lastUsed: int)

  type Distribution = map<SlaveId, SlaveDist>

  predicate Held(d: Distribution, bot: Bot) { exists s :: s in d && bot in d[s].bots }

  /** No bot is in two places. */
  ghost predicate HeldAtMostOnce(d: Distribution)
  {
    forall s, t, i, j :: s in d && t in d && 0 <= i < |d[s].bots| && 0 <= j < |d[t].bots| ==>
      d[s].bots[i] == d[t].bots[j] ==> s == t && i == j
  }

  /** Every bot of the set is in one place of one list, and nothing else is in any list. */
  ghost predicate HeldOnce(d: Distribution, bots: set<Bot>)
  {
    (forall b: Bot :: b in bots <==> Held(d, b)) && HeldAtMostOnce(d)
  }

  function ToSet<T(==)>(s: seq<T>): set<T> { set x | x in s }

  /** The bot the slave used last, when its record still points at one. */
  function LastUsed(d: SlaveDist): Option<Bot>
  {
    if 0 <= d.lastUsed < |d.bots| then Some(d.bots[d.lastUsed]) else None
  }

  predicate Took(d: Distribution, slave: SlaveId, bots: set<Bot>, bot: Bot)
  {
    slave in d && LastUsed(d[slave]) == Some(bot) && bot in bots
  }

  /** The bots that slaves on the list used last and that still exist. */
  ghost function Taken(d: Distribution, slaves: set<SlaveId>, bots: set<Bot>): set<Bot>
  {
    set b | b in bots && exists s :: s in slaves && Took(d, s, bots, b)
  }

  function CeilDiv(n: nat, m: nat): nat
    requires 0 < m
  {
    (n + m - 1) / m
  }

  /** Hand `rest` to the lists in turn until each has `quota` bots or none is left. */
  function Filled(lists: seq<seq<Bot>>, quota: nat, rest: seq<Bot>): (filled: seq<seq<Bot>>)
    ensures |filled| == |lists|
    decreases |lists|
  {
    if lists == [] then [] else
      var n := Share(lists[0], quota, rest);
      [lists[0] + rest[..n]] + Filled(lists[1..], quota, rest[n..])
  }

  function Share(bots: seq<Bot>, quota: nat, rest: seq<Bot>): (n: nat)
    ensures n <= |rest|
  {
    var room := Room1(bots, quota);
    if room < |rest| then room else |rest|
  }

  function Room1(bots: seq<Bot>, quota: nat): nat { if |bots| < quota then quota - |bots| else 0 }

  function Room(lists: seq<seq<Bot>>, quota: nat): nat
  {
    if lists == [] then 0 else Room1(lists[0], quota) + Room(lists[1..], quota)
  }

  function Flatten(lists: seq<seq<Bot>>): seq<Bot>
  {
    if lists == [] then [] else lists[0] + Flatten(lists[1..])
  }

  function Empties(n: nat): seq<seq<Bot>> { seq(n, _ => []) }

  /** `d` gives the k-th slave of `order` the k-th list and no history. */
  ghost predicate Deals(d: Distribution, order: seq<SlaveId>, lists: seq<seq<Bot>>)
  {
    && Lists(order, d.Keys)
    && |order| == |lists|
    && forall k :: 0 <= k < |order| ==> d[order[k]] == SlaveDist(lists[k], -1)
  }

  /** `n` is a distribution that a refresh may make of `d`, whatever the orders in which it walks the maps. */
  ghost predicate Refreshes(d: Distribution, n: Distribution, bots: set<Bot>, slaves: set<SlaveId>)
  {
    && n.Keys == slaves
    && (bots == {} ==> forall s :: s in n ==> n[s] == SlaveDist([], 0))
    && (bots != {} && slaves != {} ==> exists order, rest :: DealsRest(d, n, order, rest, bots, slaves))
  }

  ghost predicate DealsRest(d: Distribution, n: Distribution, order: seq<SlaveId>, rest: seq<Bot>, bots: set<Bot>,
                            slaves: set<SlaveId>)
    requires slaves != {}
  {
    && |order| == |slaves|
    && Lists(rest, bots - Taken(d, slaves, bots))
    && Deals(n, order, Filled(Empties(|order|), CeilDiv(|bots|, |slaves|), rest))
  }

  // ---- Requests and deletions ----

  datatype Event = Get(slave: SlaveId) | Delete(bot: Bot) | Refresh(to: Distribution)

  function Advanced(d: SlaveDist): SlaveDist
    requires 0 < |d.bots|
  {
    d.(lastUsed := (d.lastUsed + 1) % |d.bots|)
  }

  datatype Answer = Handed(bot: Bot) | NotFound | NoBots

  function AnswerTo(d: Distribution, slave: SlaveId): Answer
  {
    if slave !in d then NotFound
    else if d[slave].bots == [] then NoBots
    else Handed(d[slave].bots[Advanced(d[slave]).lastUsed])
  }

  function WithoutBot(s: seq<Bot>, bot: Bot): (r: seq<Bot>)
    ensures bot !in r
    ensures forall b :: b in r ==> b in s
  {
    if s == [] then [] else (if s[0] == bot then [] else [s[0]]) + WithoutBot(s[1..], bot)
  }

  function Deleted(d: Distribution, bot: Bot): Distribution
  {
    map s | s in d :: d[s].(bots := WithoutBot(d[s].bots, bot))
  }

  function Step(d: Distribution, e: Event): Distribution
  {
    match e
    case Get(s) => if AnswerTo(d, s).Handed? then d[s := Advanced(d[s])] else d
    case Delete(bot) => Deleted(d, bot)
    case Refresh(to) => to
  }

  function Run(d: Distribution, events: seq<Event>): Distribution
    decreases |events|
  {
    if events == [] then d else Run(Step(d, events[0]), events[1..])
  }
}

/** What a refresh deals out. */
module BotPartition {
  import opened Options
  import opened Sorting
  import opened Sums
  import opened BotModel

  lemma CeilIsEnough(n: nat, m: nat)
    requires 0 < m
    ensures n <= CeilDiv(n, m) * m < n + m
  {
    var q := CeilDiv(n, m);
    assert (n + m - 1) == q * m + (n + m - 1) % m;
  }

  lemma CeilIsPositive(n: nat, m: nat)
    requires 0 < n && 0 < m
    ensures 0 < CeilDiv(n, m)
  {
    CeilIsEnough(n, m);
  }

  /** With room for everything, nothing is lost and nothing is duplicated. */
  lemma {:induction false} FilledHoldsAll(lists: seq<seq<Bot>>, quota: nat, rest: seq<Bot>)
    requires |rest| <= Room(lists, quota)
    ensures multiset(Flatten(Filled(lists, quota, rest))) == multiset(Flatten(lists)) + multiset(rest)
    decreases |lists|
  {
    if lists != [] {
      var n := Share(lists[0], quota, rest);
      FilledHoldsAll(lists[1..], quota, rest[n..]);
      var filled := Filled(lists, quota, rest);
      assert filled[1..] == Filled(lists[1..], quota, rest[n..]);
      assert rest == rest[..n] + rest[n..];
    }
  }

  lemma {:induction false} FilledSizes(lists: seq<seq<Bot>>, quota: nat, rest: seq<Bot>, k: nat)
    requires k < |lists| && |lists[k]| <= quota
    ensures |Filled(lists, quota, rest)[k]| <= quota
    ensures lists[k] <= Filled(lists, quota, rest)[k]
    decreases |lists|
  {
    if 0 < k {
      FilledSizes(lists[1..], quota, rest[Share(lists[0], quota, rest)..], k - 1);
    }
  }

  lemma {:induction false} InFlatten(lists: seq<seq<Bot>>, b: Bot)
    ensures b in Flatten(lists) <==> exists k :: 0 <= k < |lists| && b in lists[k]
  {
    if lists != [] {
      InFlatten(lists[1..], b);
      if b in Flatten(lists[1..]) {
        var k :| 0 <= k < |lists[1..]| && b in lists[1..][k];
        assert b in lists[k + 1];
      }
      if k :| 0 <= k < |lists| && b in lists[k] {
        assert 0 < k ==> b in lists[1..][k - 1];
      }
    }
  }

  lemma {:induction false} OneInFlatten(lists: seq<seq<Bot>>, k: nat, i: nat, l: nat, j: nat)
    requires forall b :: multiset(Flatten(lists))[b] <= 1
    requires k < |lists| && i < |lists[k]| && l < |lists| && j < |lists[l]| && lists[k][i] == lists[l][j]
    ensures k == l && i == j
    decreases |lists|
  {
    var b := lists[k][i];
    var first, others := lists[0], Flatten(lists[1..]);
    assert Flatten(lists) == first + others;
    assert multiset(first + others)[b] <= 1;
    assert multiset(first)[b] + multiset(others)[b] <= 1;
    if k == 0 && l == 0 {
      if i < j {
        OccursTwice(first, i, j);
      } else if j < i {
        OccursTwice(first, j, i);
      }
    } else if k == 0 || l == 0 {
      var other := if k == 0 then l else k;
      assert b in first && b in multiset(first);
      assert b in lists[1..][other - 1];
      InFlatten(lists[1..], b);
      assert false;
    } else {
      assert forall c :: multiset(others)[c] <= 1 by {
        forall c ensures multiset(others)[c] <= 1 {
          assert multiset(Flatten(lists))[c] <= 1;
        }
      }
      OneInFlatten(lists[1..], k - 1, i, l - 1, j);
    }
  }

  /** Lists that together are a set's elements, once each, make a distribution that holds each once. */
  lemma {:induction false} DealtOnce(d: Distribution, order: seq<SlaveId>, lists: seq<seq<Bot>>, bots: set<Bot>)
    requires Deals(d, order, lists) && multiset(Flatten(lists)) == multiset(bots)
    ensures HeldOnce(d, bots)
  {
    forall b: Bot ensures b in bots <==> Held(d, b) {
      assert b in bots <==> b in multiset(bots);
      assert b in Flatten(lists) <==> b in multiset(Flatten(lists));
      InFlatten(lists, b);
      if k :| 0 <= k < |lists| && b in lists[k] {
        assert order[k] in d && b in d[order[k]].bots;
      }
      if s :| s in d && b in d[s].bots {
        var k :| 0 <= k < |order| && order[k] == s;
        assert b in lists[k];
      }
    }
    forall s, t, i, j | s in d && t in d && 0 <= i < |d[s].bots| && 0 <= j < |d[t].bots| && d[s].bots[i] == d[t].bots[j]
      ensures s == t && i == j
    {
      var k :| 0 <= k < |order| && order[k] == s;
      var l :| 0 <= l < |order| && order[l] == t;
      OneInFlatten(lists, k, i, l, j);
    }
  }

  lemma {:induction false} ListedOnce(s: seq<Bot>, elements: set<Bot>)
    requires Lists(s, elements)
    ensures multiset(s) == multiset(elements)
  {
    forall b: Bot ensures multiset(s)[b] == multiset(elements)[b] {
      OccursOnce(s, b);
      assert b in s <==> b in multiset(s);
    }
  }

  lemma {:induction false} ListLength(s: seq<Bot>, elements: set<Bot>)
    requires Lists(s, elements)
    ensures |s| == |elements|
  {
    ListedOnce(s, elements);
    assert |multiset(s)| == |s| && |multiset(elements)| == |elements|;
  }

  lemma {:induction false} EmptiesHaveRoom(m: nat, quota: nat)
    ensures Room(Empties(m), quota) == m * quota
    ensures Flatten(Empties(m)) == []
    decreases m
  {
    if m != 0 {
      assert Empties(m)[1..] == Empties(m - 1);
      EmptiesHaveRoom(m - 1, quota);
    }
  }

  lemma TakenGrows(d: Distribution, done: set<SlaveId>, slave: SlaveId, bots: set<Bot>)
    ensures Taken(d, done + {slave}, bots) == Taken(d, done, bots) + ToSet(Kept(d, slave, bots))
  {
    forall b: Bot ensures b in Taken(d, done + {slave}, bots) <==> b in Taken(d, done, bots) || Took(d, slave, bots, b) {
      if b in bots && Took(d, slave, bots, b) {
        assert slave in done + {slave};
      }
      if b in Taken(d, done, bots) {
        var s :| s in done && Took(d, s, bots, b);
        assert s in done + {slave};
      }
    }
  }

  lemma NotTakenByOthers(d: Distribution, done: set<SlaveId>, slave: SlaveId, bots: set<Bot>, bot: Bot)
    requires HeldAtMostOnce(d)
    requires slave in d && slave !in done && LastUsed(d[slave]) == Some(bot)
    ensures bot !in Taken(d, done, bots)
  {
    assert forall s :: s in done ==> !Took(d, s, bots, bot);
  }

  /** Whatever the orders in which the maps are walked, a refresh gives every slave at most its share, no bot twice,
      and together they hold every bot that no slave had used last. */
  lemma {:induction false} RefreshHoldsTheRest(d: Distribution, order: seq<SlaveId>, rest: seq<Bot>, bots: set<Bot>,
                                               taken: set<Bot>)
    requires 0 < |order| && taken <= bots && Lists(rest, bots - taken)
    requires Deals(d, order, Filled(Empties(|order|), CeilDiv(|bots|, |order|), rest))
    ensures HeldOnce(d, bots - taken)
    ensures forall s :: s in d ==> |d[s].bots| <= CeilDiv(|bots|, |order|)
  {
    var quota := CeilDiv(|bots|, |order|);
    var lists := Empties(|order|);
    ListLength(rest, bots - taken);
    SubsetIsSmaller(bots - taken, bots);
    CeilIsEnough(|bots|, |order|);
    EmptiesHaveRoom(|order|, quota);
    FilledHoldsAll(lists, quota, rest);
    ListedOnce(rest, bots - taken);
    DealtOnce(d, order, Filled(lists, quota, rest), bots - taken);
    forall s | s in d ensures |d[s].bots| <= quota {
      var k :| 0 <= k < |order| && order[k] == s;
      FilledSizes(lists, quota, rest, k);
    }
  }

  /** So no bot is lost exactly when no slave's last used bot was taken out. */
  lemma {:induction false} AllHeldIffNoneTaken(d: Distribution, order: seq<SlaveId>, rest: seq<Bot>, bots: set<Bot>,
                                               taken: set<Bot>)
    requires 0 < |order| && taken <= bots && Lists(rest, bots - taken)
    requires Deals(d, order, Filled(Empties(|order|), CeilDiv(|bots|, |order|), rest))
    ensures HeldOnce(d, bots) <==> taken == {}
  {
    RefreshHoldsTheRest(d, order, rest, bots, taken);
    if taken == {} {
      assert bots - taken == bots;
    } else {
      var b: Bot :| b in taken;
      assert !Held(d, b);
      assert b in bots;
    }
  }

  /** All of it about whatever a refresh may produce. */
  lemma {:induction false} RefreshedOnce(d: Distribution, n: Distribution, bots: set<Bot>, slaves: set<SlaveId>)
    requires Refreshes(d, n, bots, slaves)
    ensures HeldAtMostOnce(n)
    ensures slaves != {} ==> HeldOnce(n, bots - Taken(d, slaves, bots))
    ensures forall s :: s in n ==> n[s].lastUsed == -1 || n[s] == SlaveDist([], 0)
  {
    if bots != {} && slaves != {} {
      var order, rest :| DealsRest(d, n, order, rest, bots, slaves);
      RefreshHoldsTheRest(n, order, rest, bots, Taken(d, slaves, bots));
      forall s | s in n ensures n[s].lastUsed == -1 {
        assert s in order;
      }
    }
  }

  // ---- The variant that keeps the last used bot ----

  /** The slave's last used bot, if it still exists. */
  function Kept(d: Distribution, slave: SlaveId, bots: set<Bot>): seq<Bot>
  {
    if slave in d && LastUsed(d[slave]).Some? && LastUsed(d[slave]).value in bots then [LastUsed(d[slave]).value] else []
  }

  function KeptLists(d: Distribution, order: seq<SlaveId>, bots: set<Bot>): (kept: seq<seq<Bot>>)
    ensures |kept| == |order| && forall k :: 0 <= k < |order| ==> kept[k] == Kept(d, order[k], bots)
    decreases |order|
  {
    if order == [] then [] else [Kept(d, order[0], bots)] + KeptLists(d, order[1..], bots)
  }

  /** The kept bots are the ones taken out, once each. */
  lemma {:induction false} KeptAreTaken(d: Distribution, order: seq<SlaveId>, bots: set<Bot>)
    requires HeldAtMostOnce(d) && forall i, j :: 0 <= i < j < |order| ==> order[i] != order[j]
    ensures Lists(Flatten(KeptLists(d, order, bots)), Taken(d, ToSet(order), bots))
    decreases |order|
  {
    if order == [] {
      assert Taken(d, ToSet(order), bots) == {};
    } else {
      var rest := order[1..];
      KeptAreTaken(d, rest, bots);
      assert order == [order[0]] + rest;
      assert ToSet(order) == ToSet(rest) + {order[0]};
      TakenGrows(d, ToSet(rest), order[0], bots);
      var kept := KeptLists(d, order, bots);
      assert kept[1..] == KeptLists(d, rest, bots);
      assert Flatten(kept) == kept[0] + Flatten(kept[1..]);
      if kept[0] != [] {
        NotTakenByOthers(d, ToSet(rest), order[0], bots, kept[0][0]);
      }
    }
  }

  /** At most one bot in each list. */
  ghost predicate Singles(lists: seq<seq<Bot>>) { forall k :: 0 <= k < |lists| ==> |lists[k]| <= 1 }

  lemma {:induction false} SinglesLeaveRoom(lists: seq<seq<Bot>>, quota: nat)
    requires Singles(lists) && 0 < quota
    ensures Room(lists, quota) == |lists| * quota - |Flatten(lists)|
    decreases |lists|
  {
    if lists != [] {
      SinglesLeaveRoom(lists[1..], quota);
      assert |Flatten(lists)| == |lists[0]| + |Flatten(lists[1..])|;
      assert |lists| * quota == quota + |lists[1..]| * quota;
    }
  }

  /** Lists that start with some of the bots, one at most in each, take up all of them. */
  lemma {:induction false} SinglesHoldAll(d: Distribution, order: seq<SlaveId>, kept: seq<seq<Bot>>, rest: seq<Bot>,
                                          bots: set<Bot>, taken: set<Bot>)
    requires 0 < |order| && 0 < |bots| && taken <= bots && Lists(rest, bots - taken)
    requires |kept| == |order| && Singles(kept) && Lists(Flatten(kept), taken)
    requires Deals(d, order, Filled(kept, CeilDiv(|bots|, |order|), rest))
    ensures HeldOnce(d, bots)
  {
    var quota := CeilDiv(|bots|, |order|);
    CeilIsEnough(|bots|, |order|);
    CeilIsPositive(|bots|, |order|);
    ListLength(rest, bots - taken);
    ListLength(Flatten(kept), taken);
    assert |bots| == |bots - taken| + |taken| by {
      assert bots == (bots - taken) + taken;
    }
    SinglesLeaveRoom(kept, quota);
    FilledHoldsAll(kept, quota, rest);
    assert multiset(Flatten(Filled(kept, quota, rest))) == multiset(bots) by {
      ListedOnce(rest, bots - taken);
      ListedOnce(Flatten(kept), taken);
      assert multiset(bots) == multiset(taken) + multiset(bots - taken);
    }
    DealtOnce(d, order, Filled(kept, quota, rest), bots);
  }

  lemma {:induction false} SinglesFit(d: Distribution, order: seq<SlaveId>, kept: seq<seq<Bot>>, quota: nat, rest: seq<Bot>)
    requires |kept| == |order| && Singles(kept) && 0 < quota && Deals(d, order, Filled(kept, quota, rest))
    ensures forall s :: s in d ==> |d[s].bots| <= quota
    ensures forall k :: 0 <= k < |order| ==> kept[k] <= d[order[k]].bots
  {
    forall k | 0 <= k < |order| ensures |d[order[k]].bots| <= quota && kept[k] <= d[order[k]].bots {
      FilledSizes(kept, quota, rest, k);
    }
    forall s | s in d ensures |d[s].bots| <= quota {
      var k :| 0 <= k < |order| && order[k] == s;
    }
  }

  /** Had each slave's last used bot been put into its new record, every bot would be held once, last used ones first
      in the list of the slave that used them. */
  lemma {:induction false} KeepingLastUsedHoldsAll(d: Distribution, n: Distribution, order: seq<SlaveId>, rest: seq<Bot>,
                                                   bots: set<Bot>)
    requires HeldAtMostOnce(d) && 0 < |order| && 0 < |bots|
    requires Lists(rest, bots - Taken(d, ToSet(order), bots))
    requires Deals(n, order, Filled(KeptLists(d, order, bots), CeilDiv(|bots|, |order|), rest))
    ensures HeldOnce(n, bots)
    ensures forall s :: s in n ==> |n[s].bots| <= CeilDiv(|bots|, |order|) && Kept(d, s, bots) <= n[s].bots
  {
    var kept := KeptLists(d, order, bots);
    KeptAreTaken(d, order, bots);
    CeilIsPositive(|bots|, |order|);
    SinglesHoldAll(n, order, kept, rest, bots, Taken(d, ToSet(order), bots));
    SinglesFit(n, order, kept, CeilDiv(|bots|, |order|), rest);
    KeptComeFirst(d, n, order, bots);
  }

  lemma {:induction false} KeptComeFirst(d: Distribution, n: Distribution, order: seq<SlaveId>, bots: set<Bot>)
    requires Lists(order, n.Keys) && forall k :: 0 <= k < |order| ==> KeptLists(d, order, bots)[k] <= n[order[k]].bots
    ensures forall s :: s in n ==> Kept(d, s, bots) <= n[s].bots
  {
    forall s | s in n ensures Kept(d, s, bots) <= n[s].bots {
      var k :| 0 <= k < |order| && order[k] == s;
      assert KeptLists(d, order, bots)[k] <= n[order[k]].bots;
    }
  }
}

/** How a slave's bots take turns. */
module BotRotation {
  import opened Options
  import opened Filtering
  import opened BotModel

  /** No record points below the start of its list. */
  ghost predicate Pointing(d: Distribution) { forall s :: s in d ==> -1 <= d[s].lastUsed }

  ghost predicate FromPointing(events: seq<Event>)
  {
    forall i :: 0 <= i < |events| && events[i].Refresh? ==> Pointing(events[i].to)
  }

  /** Under any interleaving of requests, deletions and refreshes, the bot handed out is one of the slave's bots. */
  lemma {:induction false} AlwaysInRange(d: Distribution, events: seq<Event>, slave: SlaveId)
    requires Pointing(d) && FromPointing(events)
    ensures var n := Run(d, events);
            Pointing(n) && (slave in n && n[slave].bots != [] ==>
              0 <= Advanced(n[slave]).lastUsed < |n[slave].bots| && AnswerTo(n, slave).bot in n[slave].bots)
    decreases |events|
  {
    if events != [] {
      assert Pointing(Step(d, events[0]));
      AlwaysInRange(Step(d, events[0]), events[1..], slave);
    }
  }

  /** Deleting a bot removes every entry for it and no other entry, and leaves the others in their order. */
  lemma {:induction false} DeletionIsExact(s: seq<Bot>, bot: Bot)
    ensures forall b: Bot :: multiset(WithoutBot(s, bot))[b] == if b == bot then 0 else multiset(s)[b]
    ensures InOrder(WithoutBot(s, bot), s)
  {
    if s == [] {
      NothingInOrder(s);
    } else {
      var rest := WithoutBot(s[1..], bot);
      DeletionIsExact(s[1..], bot);
      OneMoreInOrder(rest, s);
      assert s == [s[0]] + s[1..];
      assert WithoutBot(s, bot) == if s[0] == bot then rest else [s[0]] + rest;
    }
  }

  lemma {:induction false} WithoutBotKeepsDistinct(s: seq<Bot>, bot: Bot)
    requires forall i, j :: 0 <= i < j < |s| ==> s[i] != s[j]
    ensures forall i, j :: 0 <= i < j < |WithoutBot(s, bot)| ==> WithoutBot(s, bot)[i] != WithoutBot(s, bot)[j]
  {
    if s != [] {
      WithoutBotKeepsDistinct(s[1..], bot);
      assert forall k :: 0 <= k < |s[1..]| ==> s[1..][k] == s[k + 1];
      assert s[0] !in s[1..];
    }
  }

  /** Requests and deletions never put a bot in two places. */
  lemma {:induction false} StepKeepsBotsApart(d: Distribution, e: Event)
    requires HeldAtMostOnce(d) && (e.Refresh? ==> HeldAtMostOnce(e.to))
    ensures HeldAtMostOnce(Step(d, e))
  {
    if e.Delete? {
      var n := Step(d, e);
      forall s, t, i, j | s in n && t in n && 0 <= i < |n[s].bots| && 0 <= j < |n[t].bots| && n[s].bots[i] == n[t].bots[j]
        ensures s == t && i == j
      {
        var b := n[s].bots[i];
        assert b in d[s].bots && b in d[t].bots;
        var k :| 0 <= k < |d[s].bots| && d[s].bots[k] == b;
        var l :| 0 <= l < |d[t].bots| && d[t].bots[l] == b;
        assert s == t;
        WithoutBotKeepsDistinct(d[s].bots, e.bot);
      }
    }
  }

  /** No event supplies the bot. */
  ghost predicate NotSupplied(events: seq<Event>, bot: Bot)
  {
    forall i :: 0 <= i < |events| && events[i].Refresh? ==> !Held(events[i].to, bot)
  }

  lemma {:induction false} AbsentStaysAbsent(d: Distribution, events: seq<Event>, bot: Bot)
    requires !Held(d, bot) && NotSupplied(events, bot)
    ensures !Held(Run(d, events), bot)
    decreases |events|
  {
    if events != [] {
      var n := Step(d, events[0]);
      forall s | s in n ensures bot !in n[s].bots {
        assert s in d ==> bot !in d[s].bots;
      }
      AbsentStaysAbsent(n, events[1..], bot);
    }
  }

  /** A bot reported corrupted is not handed to any slave before a refresh supplies it again. */
  lemma {:induction false} CorruptedIsNeverHanded(d: Distribution, bot: Bot, events: seq<Event>, slave: SlaveId)
    requires NotSupplied(events, bot)
    ensures AnswerTo(Run(Step(d, Delete(bot)), events), slave) != Handed(bot)
  {
    var gone := Step(d, Delete(bot));
    assert !Held(gone, bot);
    AbsentStaysAbsent(gone, events, bot);
  }

  /** The bots handed to one slave in a run. */
  function HandedTo(d: Distribution, events: seq<Event>, slave: SlaveId): seq<Bot>
    decreases |events|
  {
    if events == [] then [] else
      var rest := HandedTo(Step(d, events[0]), events[1..], slave);
      if events[0] == Get(slave) && AnswerTo(d, slave).Handed? then [AnswerTo(d, slave).bot] + rest else rest
  }

  ghost predicate OnlyRequests(events: seq<Event>) { forall e :: e in events ==> e.Get? }

  lemma MultipleIsFar(k: int, d: int)
    requires 0 < k
    ensures 1 <= d ==> k <= k * d
    ensures 2 <= d ==> 2 * k <= k * d
    ensures d <= -1 ==> k * d <= -k
  {
  }

  lemma QuotientIs(n: nat, k: nat, q: nat, r: nat)
    requires 0 < k && n == k * q + r && r < k
    ensures n / k == q && n % k == r
  {
    var d := n / k - q;
    assert k * d == k * (n / k) - k * q;
    MultipleIsFar(k, d);
  }

  lemma NextQuotient(n: nat, k: nat)
    requires 0 < k
    ensures n % k + 1 < k ==> (n + 1) / k == n / k && (n + 1) % k == n % k + 1
    ensures n % k + 1 == k ==> (n + 1) / k == n / k + 1 && (n + 1) % k == 0
  {
    var q, r := n / k, n % k;
    if r + 1 == k {
      assert k * (q + 1) == k * q + k;
      QuotientIs(n + 1, k, q + 1, 0);
    } else {
      QuotientIs(n + 1, k, q, r + 1);
    }
  }

  lemma TurnsAdvance(turn: nat, k: nat)
    requires 0 < k
    ensures (turn % k + 1) % k == (turn + 1) % k
  {
    NextQuotient(turn, k);
    QuotientIs(turn % k, k, 0, turn % k);
    NextQuotient(turn % k, k);
  }

  /** Requests alone hand out the slave's bots round and round, whatever other slaves ask in between. Any `turn` that
      agrees with where the record stands will do. */
  lemma {:induction false} HandedInTurn(d: Distribution, events: seq<Event>, slave: SlaveId, turn: nat, i: nat)
    requires slave in d && 0 < |d[slave].bots| && OnlyRequests(events)
    requires (d[slave].lastUsed + 1) % |d[slave].bots| == turn % |d[slave].bots|
    requires i < |HandedTo(d, events, slave)|
    ensures HandedTo(d, events, slave)[i] == d[slave].bots[(turn + i) % |d[slave].bots|]
    decreases |events|
  {
    var n := Step(d, events[0]);
    assert events[0] in events;
    if events[0] == Get(slave) {
      if 0 < i {
        TurnsAdvance(turn, |d[slave].bots|);
        HandedInTurn(n, events[1..], slave, turn + 1, i - 1);
      }
    } else {
      HandedInTurn(n, events[1..], slave, turn, i);
    }
  }

  /** A sequence that goes round and round. */
  ghost predicate Cycles(bots: seq<Bot>, handed: seq<Bot>)
    requires 0 < |bots|
  {
    forall i :: 0 <= i < |handed| ==> handed[i] == bots[i % |bots|]
  }

  /** How often position j comes up in n turns round k positions: n/k or one more. */
  function Turns(n: nat, k: nat, j: nat): nat
    requires 0 < k
  {
    n / k + if j < n % k then 1 else 0
  }

  lemma TurnsGrow(n: nat, k: nat, j: nat)
    requires j < k
    ensures Turns(n + 1, k, j) == Turns(n, k, j) + if n % k == j then 1 else 0
  {
    NextQuotient(n, k);
  }

  lemma NoTurnsYet(k: nat, j: nat)
    requires j < k
    ensures Turns(0, k, j) == 0
  {
    QuotientIs(0, k, 0, 0);
  }

  /** Going round and round gives each of k bots floor(n/k) or ceil(n/k) of n turns, the first ones the more. */
  lemma {:induction false} CyclesAreFair(bots: seq<Bot>, handed: seq<Bot>, j: nat)
    requires j < |bots| && Cycles(bots, handed)
    requires forall a, b :: 0 <= a < b < |bots| ==> bots[a] != bots[b]
    ensures multiset(handed)[bots[j]] == Turns(|handed|, |bots|, j)
    decreases |handed|
  {
    if handed == [] {
      NoTurnsYet(|bots|, j);
    } else {
      var n := |handed| - 1;
      assert handed == handed[..n] + [handed[n]];
      CyclesAreFair(bots, handed[..n], j);
      TurnsGrow(n, |bots|, j);
      assert handed[n] == bots[n % |bots|];
    }
  }

  /** From a fresh record, any run of requests serves a slave's bots fairly. */
  lemma {:induction false} RotationIsFair(d: Distribution, events: seq<Event>, slave: SlaveId, j: nat)
    requires slave in d && d[slave].lastUsed == -1 && j < |d[slave].bots| && OnlyRequests(events)
    requires forall a, b :: 0 <= a < b < |d[slave].bots| ==> d[slave].bots[a] != d[slave].bots[b]
    ensures var handed := HandedTo(d, events, slave);
            multiset(handed)[d[slave].bots[j]] == Turns(|handed|, |d[slave].bots|, j)
  {
    var handed := HandedTo(d, events, slave);
    forall i | 0 <= i < |handed| ensures handed[i] == d[slave].bots[i % |d[slave].bots|] {
      HandedInTurn(d, events, slave, 0, i);
    }
    CyclesAreFair(d[slave].bots, handed, j);
  }
}
