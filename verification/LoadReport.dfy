/** What a load report makes the master do: start slaves, or kill the least used ones, or neither. */
module LoadReport {
  import opened Options
  import opened Sorting
  import opened Sums
  import opened MasterModel
  import opened SlaveLoads

  /** A float is cut off towards zero when it becomes an int. */
  function Truncated(x: real): int { if 0.0 <= x then x.Floor else -((-x).Floor) }

  function Recommended(avgLoad: real, avgSubMinutes: real): int { Truncated(0.6 + avgLoad * avgSubMinutes) }

  /** No more slaves than half of the bots, and no more than recommended. */
  function Cap(bots: nat, recommended: int): int { if (bots + 1) / 2 <= recommended then (bots + 1) / 2 else recommended }

  function AtLeastOne(cap: int): nat { if cap < 1 then 1 else cap }

  function Launches(m: Master, cap: int): nat
  {
    var total := |m.slaves| + |m.pending|;
    if total < AtLeastOne(cap) then AtLeastOne(cap) - total else 0
  }

  /** One slave too many is taken as noise. */
  function Kills(m: Master, cap: int): (k: nat)
    ensures k <= |m.slaves|
  {
    var active := |m.slaves|;
    if cap < active && active - 1 != cap && AtLeastOne(cap) < active then active - AtLeastOne(cap) else 0
  }

  function LessLoaded(): (Slave, Slave) -> bool { (a: Slave, b: Slave) => a.load < b.load }

  ghost predicate LeastUsedFirst(order: seq<Slave>, slaves: seq<Slave>)
  {
    SortedBy(LessLoaded(), order) && multiset(order) == multiset(slaves)
  }

  /** The mail ids of those victims the scheduler agrees to kill. */
  function Omitted(victims: seq<Slave>, unkillable: set<TaskId>): set<MailId>
  {
    set v | v in victims && v.task !in unkillable :: v.mail
  }

  /** Each request to the scheduler yields a task id, or fails. */
  function StartAll(m: Master, outcomes: seq<Option<TaskId>>): Master
    decreases |outcomes|
  {
    if outcomes == [] then m
    else StartAll(if outcomes[0].Some? then Step(m, StartSlave(outcomes[0].value)) else m, outcomes[1..])
  }

  ghost predicate FreshTasks(m: Master, outcomes: seq<Option<TaskId>>)
    decreases |outcomes|
  {
    outcomes == [] ||
    if outcomes[0].None? then FreshTasks(m, outcomes[1..])
    else outcomes[0].value !in m.seen && FreshTasks(Step(m, StartSlave(outcomes[0].value)), outcomes[1..])
  }

  ghost predicate AllStarted(outcomes: seq<Option<TaskId>>) { forall o :: o in outcomes ==> o.Some? }

  /** `n` is what handling a report makes of `m`. */
  ghost predicate Reported(m: Master, cap: int, outcomes: seq<Option<TaskId>>, order: seq<Slave>, unkillable: set<TaskId>,
                           n: Master)
  {
    && |outcomes| == Launches(m, cap)
    && if Kills(m, cap) == 0 then n == StartAll(m, outcomes) else
       && LeastUsedFirst(order, m.slaves)
       && |order| == |m.slaves|
       && n == Omit(StartAll(m, outcomes), Omitted(order[..Kills(m, cap)], unkillable))
  }

  // ---- Counting ----

  ghost function Mails(s: seq<Slave>): set<MailId> { set x | x in s :: x.mail }

  lemma {:induction false} KeepIgnoresStrangers(s: seq<Slave>, mails: set<MailId>, x: MailId)
    requires forall i :: 0 <= i < |s| ==> s[i].mail != x
    ensures Keep(s, mails) == Keep(s, mails - {x})
  {
    if s != [] {
      KeepIgnoresStrangers(s[1..], mails, x);
    }
  }

  lemma {:induction false} KeepCount(s: seq<Slave>, mails: set<MailId>)
    requires MailsDistinct(s) && mails <= Mails(s)
    ensures |Keep(s, mails)| == |s| - |mails|
  {
    if s != [] {
      var first := s[0].mail;
      var rest := mails - {first};
      assert s == [s[0]] + s[1..];
      KeepIgnoresStrangers(s[1..], mails, first);
      assert rest <= Mails(s[1..]) by {
        forall y | y in rest ensures y in Mails(s[1..]) {
          var v :| v in s && v.mail == y;
          assert v in s[1..];
        }
      }
      KeepCount(s[1..], rest);
      assert first in mails ==> mails == rest + {first};
      assert first !in mails ==> mails == rest;
    } else {
      assert mails == {};
    }
  }

  lemma FirstMailIsAlone(s: seq<Slave>)
    requires MailsDistinct(s) && 0 < |s|
    ensures MailsDistinct(s[1..])
    ensures s[0].mail !in Mails(s[1..])
    ensures Mails(s) == {s[0].mail} + Mails(s[1..])
  {
    assert s == [s[0]] + s[1..];
    forall v | v in s[1..] ensures v.mail != s[0].mail {
      var k :| 0 < k < |s| && s[k] == v;
    }
  }

  lemma {:induction false} MailsCount(s: seq<Slave>)
    requires MailsDistinct(s)
    ensures |Mails(s)| == |s|
  {
    if s != [] {
      FirstMailIsAlone(s);
      MailsCount(s[1..]);
    }
  }

  lemma {:induction false} DistinctInAnyOrder(s: seq<Slave>, order: seq<Slave>)
    requires MailsDistinct(s) && multiset(order) == multiset(s)
    ensures MailsDistinct(order)
  {
    forall i, j | 0 <= i < j < |order| ensures order[i].mail != order[j].mail {
      assert order[i] in multiset(s) && order[j] in multiset(s);
      var a :| 0 <= a < |s| && s[a] == order[i];
      var b :| 0 <= b < |s| && s[b] == order[j];
      if a == b {
        OccursTwice(order, i, j);
        OccursOnce(s, order[i]);
      } else {
        assert a < b || b < a;
      }
    }
  }

  lemma {:induction false} StartAllAdds(m: Master, outcomes: seq<Option<TaskId>>)
    requires !m.crashed && m.pending <= m.seen && FreshTasks(m, outcomes)
    ensures var n := StartAll(m, outcomes);
            && n.slaves == m.slaves && m.pending <= n.pending
            && |m.pending| <= |n.pending| <= |m.pending| + |outcomes|
            && (AllStarted(outcomes) ==> |n.pending| == |m.pending| + |outcomes|)
    decreases |outcomes|
  {
    if outcomes != [] {
      var m1 := if outcomes[0].Some? then Step(m, StartSlave(outcomes[0].value)) else m;
      if outcomes[0].Some? {
        assert outcomes[0].value !in m.pending;
      }
      StartAllAdds(m1, outcomes[1..]);
      assert outcomes == [outcomes[0]] + outcomes[1..];
    }
  }

  /** The slaves that stay: all but the victims the scheduler agreed to kill. */
  lemma {:induction false} KillsCount(s: seq<Slave>, order: seq<Slave>, num: nat, unkillable: set<TaskId>)
    requires MailsDistinct(s) && multiset(order) == multiset(s) && num <= |order|
    ensures |s| - num <= |Keep(s, Omitted(order[..num], unkillable))|
    ensures unkillable == {} ==> |Keep(s, Omitted(order[..num], unkillable))| == |s| - num
  {
    var victims := order[..num];
    var mails := Omitted(victims, unkillable);
    DistinctInAnyOrder(s, order);
    MailsCount(victims);
    assert mails <= Mails(victims);
    SubsetIsSmaller(mails, Mails(victims));
    assert mails <= Mails(s) by {
      forall y | y in mails ensures y in Mails(s) {
        var v :| v in victims && v.mail == y;
        assert v in order;
        assert v in multiset(s);
      }
    }
    KeepCount(s, mails);
    if unkillable == {} {
      assert mails == Mails(victims);
    }
  }

  // ---- What a report achieves ----

  /** A report never both launches and kills. */
  lemma {:induction false} NeverLaunchesAndKills(m: Master, cap: int, outcomes: seq<Option<TaskId>>, order: seq<Slave>,
                                                 unkillable: set<TaskId>, n: Master)
    requires Reported(m, cap, outcomes, order, unkillable, n) && MailsDistinct(m.slaves)
    ensures n.pending == m.pending || (n.slaves == m.slaves && n.killed == m.killed)
  {
    if Launches(m, cap) != 0 {
      StartAllKeepsSlaves(m, outcomes);
    }
  }

  lemma {:induction false} StartAllKeepsSlaves(m: Master, outcomes: seq<Option<TaskId>>)
    ensures StartAll(m, outcomes).slaves == m.slaves && StartAll(m, outcomes).killed == m.killed
    decreases |outcomes|
  {
    if outcomes != [] {
      StartAllKeepsSlaves(if outcomes[0].Some? then Step(m, StartSlave(outcomes[0].value)) else m, outcomes[1..]);
    }
  }

  lemma {:induction false} KeepsAll(s: seq<Slave>)
    ensures Keep(s, {}) == s && Drop(s, {}) == []
  {
    if s != [] {
      KeepsAll(s[1..]);
    }
  }

  /** Whatever the scheduler refuses to kill, no report takes the last slave or goes below the cap by killing; when
      the scheduler starts every slave asked for, as many are active or on their way as the load needs. */
  lemma {:induction false} ReportLeavesEnough(m: Master, cap: int, outcomes: seq<Option<TaskId>>, order: seq<Slave>,
                                              unkillable: set<TaskId>, n: Master)
    requires !m.crashed && m.pending <= m.seen && MailsDistinct(m.slaves) && FreshTasks(m, outcomes)
    requires Reported(m, cap, outcomes, order, unkillable, n)
    ensures 0 < |m.slaves| ==> 0 < |n.slaves|
    ensures |n.slaves| < |m.slaves| ==> AtLeastOne(cap) <= |n.slaves|
    ensures AllStarted(outcomes) ==> AtLeastOne(cap) <= |n.slaves| + |n.pending|
  {
    StartAllAdds(m, outcomes);
    if 0 < Kills(m, cap) {
      KillsCount(m.slaves, order, Kills(m, cap), unkillable);
    }
  }

  /** When launches and kills succeed, the same report handled again at once changes nothing. */
  lemma {:induction false} RepeatedReportDoesNothing(m: Master, cap: int, outcomes: seq<Option<TaskId>>, order: seq<Slave>,
                                                     n: Master, again: seq<Option<TaskId>>, order2: seq<Slave>, n2: Master)
    requires !m.crashed && m.pending <= m.seen && MailsDistinct(m.slaves) && FreshTasks(m, outcomes)
    requires Reported(m, cap, outcomes, order, {}, n) && AllStarted(outcomes)
    requires Reported(n, cap, again, order2, {}, n2)
    ensures n2 == n
  {
    StartAllAdds(m, outcomes);
    if 0 < Kills(m, cap) {
      KillsCount(m.slaves, order, Kills(m, cap), {});
    }
    assert Launches(n, cap) == 0 && Kills(n, cap) == 0;
  }

  /** The mail ids the report omits are those of victims the scheduler agreed to kill. */
  lemma {:induction false} GoneWasVictim(s: seq<Slave>, order: seq<Slave>, k: nat, unkillable: set<TaskId>, gone: Slave)
    requires MailsDistinct(s) && multiset(order) == multiset(s) && k <= |order|
    requires gone in s && gone !in Keep(s, Omitted(order[..k], unkillable))
    ensures gone in order[..k]
  {
    var mails := Omitted(order[..k], unkillable);
    KeepIsSubset(s, mails);
    var v :| v in order[..k] && v.mail == gone.mail;
    assert v in order;
    assert v in multiset(s);
    assert v == gone;
  }

  /** Every slave that goes has no more active submissions than any slave that stays without the scheduler having
      refused to kill it. */
  lemma {:induction false} LeastUsedGo(m: Master, cap: int, outcomes: seq<Option<TaskId>>, order: seq<Slave>,
                                       unkillable: set<TaskId>, n: Master, gone: Slave, stays: Slave)
    requires MailsDistinct(m.slaves) && Reported(m, cap, outcomes, order, unkillable, n)
    requires gone in m.slaves && gone !in n.slaves && stays in n.slaves && stays.task !in unkillable
    ensures gone.load <= stays.load
  {
    StartAllKeepsSlaves(m, outcomes);
    var k := Kills(m, cap);
    var mails := Omitted(order[..k], unkillable);
    KeepIsSubset(m.slaves, mails);
    GoneWasVictim(m.slaves, order, k, unkillable, gone);
    var i :| 0 <= i < k && order[i] == gone;
    assert stays in multiset(order);
    var j :| 0 <= j < |order| && order[j] == stays;
    assert forall l :: 0 <= l < k ==> order[l] in order[..k];
    assert stays.mail !in mails;
    assert !LessLoaded()(order[j], order[i]);
  }

  // ---- In terms of the load itself ----

  lemma TruncatesTowardsZero(x: real, whole: int)
    ensures whole == Truncated(x) <==>
            if 0.0 <= x then whole as real <= x < (whole + 1) as real else (whole - 1) as real < x <= whole as real
  {
    assert x.Floor as real <= x < x.Floor as real + 1.0;
    assert (-x).Floor as real <= -x < (-x).Floor as real + 1.0;
  }

  /** Rounded up from .4 on: the number of slaves is the only whole number from the load minus 0.4 to the load plus 0.6. */
  lemma RecommendationRoundsUp(avgLoad: real, avgSubMinutes: real, whole: int)
    requires 0.0 <= avgLoad * avgSubMinutes
    ensures whole == Recommended(avgLoad, avgSubMinutes) <==>
            avgLoad * avgSubMinutes - 0.4 < whole as real <= avgLoad * avgSubMinutes + 0.6
  {
    var x := 0.6 + avgLoad * avgSubMinutes;
    assert x.Floor as real <= x < x.Floor as real + 1.0;
  }

  lemma {:induction false} SizesAfter(m: Master, cap: int, outcomes: seq<Option<TaskId>>, order: seq<Slave>, n: Master)
    requires !m.crashed && m.pending <= m.seen && MailsDistinct(m.slaves) && FreshTasks(m, outcomes)
    requires Reported(m, cap, outcomes, order, {}, n) && AllStarted(outcomes)
    ensures |n.slaves| == |m.slaves| - Kills(m, cap) && |n.pending| == |m.pending| + Launches(m, cap)
  {
    StartAllAdds(m, outcomes);
    if 0 < Kills(m, cap) {
      KillsCount(m.slaves, order, Kills(m, cap), {});
    }
  }

  /** When launches and kills succeed, the slaves fit the load: with those on their way there are as many as it needs,
      or as half of the bots allow, and at least one; what is launched is not more than that; the active ones are at
      most one more; and nobody is killed unless there were two too many. */
  lemma {:induction false} SlavesFitTheLoad(m: Master, avgLoad: real, avgSubMinutes: real, bots: nat,
                                            outcomes: seq<Option<TaskId>>, order: seq<Slave>, n: Master)
    requires !m.crashed && m.pending <= m.seen && MailsDistinct(m.slaves) && FreshTasks(m, outcomes)
    requires Reported(m, Cap(bots, Recommended(avgLoad, avgSubMinutes)), outcomes, order, {}, n) && AllStarted(outcomes)
    requires 0.0 <= avgLoad * avgSubMinutes
    ensures var load, total := avgLoad * avgSubMinutes, |n.slaves| + |n.pending|;
            && 1 <= total
            && ((bots + 1) / 2 <= total || load - 0.4 < total as real)
            && (|m.pending| < |n.pending| ==> total == 1 || (total <= (bots + 1) / 2 && total as real <= load + 0.6))
            && (1 < |n.slaves| ==> |n.slaves| <= (bots + 1) / 2 + 1 && |n.slaves| as real <= load + 1.6)
            && (|n.slaves| < |m.slaves| ==> (bots + 1) / 2 + 2 <= |m.slaves| || load + 1.6 < |m.slaves| as real)
  {
    var recommended := Recommended(avgLoad, avgSubMinutes);
    RecommendationRoundsUp(avgLoad, avgSubMinutes, recommended);
    SizesAfter(m, Cap(bots, recommended), outcomes, order, n);
  }
}
