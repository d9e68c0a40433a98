/** The master of the submission slaves: what each mail it handles does to its inventory. */
module MasterModel {
  import opened Options

  type TaskId = nat
  type MailId = nat
  type SubId = nat

  /** A slave in the inventory with the number of submissions given to it and not answered yet. */
  datatype Slave = Slave(task: TaskId, mail: MailId, load: int)

  /** Who asked for an active submission, and which slave has it. */
  datatype ActiveSub = ActiveSub(from: MailId, slave: MailId)

  /** `seen`, `dead` and `usedMails` record the past: tasks ever scheduled, tasks whose death mail was handled,
      mail ids ever given to a slave. */
  datatype Master = Master(
    slaves: seq<Slave>, pending: set<TaskId>, killed: seq<Slave>, active: map<SubId, ActiveSub>, crashed: bool,
    seen: set<TaskId>, dead: set<TaskId>, usedMails: set<MailId>)

  datatype Event =
    | StartSlave(task: TaskId)
    | TaskLaunched(task: TaskId)
    | SlaveReady(task: TaskId, mail: MailId, ok: bool)
    | SlaveDead(task: TaskId)
    | Kill(mails: set<MailId>)
    | SubRequest(sub: SubId, from: MailId)
    | SubResult(sub: SubId)

  function Init(): Master { Master([], {}, [], map[], false, {}, {}, {}) }

  function Keep(s: seq<Slave>, mails: set<MailId>): seq<Slave>
  {
    if s == [] then [] else (if s[0].mail in mails then [] else [s[0]]) + Keep(s[1..], mails)
  }

  function Drop(s: seq<Slave>, mails: set<MailId>): seq<Slave>
  {
    if s == [] then [] else (if s[0].mail in mails then [s[0]] else []) + Drop(s[1..], mails)
  }

  function WithoutTask(s: seq<Slave>, task: TaskId): seq<Slave>
  {
    if s == [] then [] else (if s[0].task == task then [] else [s[0]]) + WithoutTask(s[1..], task)
  }

  predicate HasTask(s: seq<Slave>, task: TaskId) { exists i :: 0 <= i < |s| && s[i].task == task }

  predicate HasMail(s: seq<Slave>, mail: MailId) { exists i :: 0 <= i < |s| && s[i].mail == mail }

  /** The first slave carrying the mail id. */
  function IndexOfMail(s: seq<Slave>, mail: MailId): (i: nat)
    ensures i <= |s|
    ensures forall k :: 0 <= k < i ==> s[k].mail != mail
    ensures i < |s| ==> s[i].mail == mail
  {
    if s == [] || s[0].mail == mail then 0 else 1 + IndexOfMail(s[1..], mail)
  }

  /** The first slave nobody has a smaller load than. */
  predicate FirstLeastLoaded(s: seq<Slave>, i: nat)
  {
    && i < |s|
    && (forall k :: 0 <= k < |s| ==> s[i].load <= s[k].load)
    && (forall k :: 0 <= k < i ==> s[i].load < s[k].load)
  }

  function LeastLoaded(s: seq<Slave>): (i: nat)
    requires 0 < |s|
    ensures FirstLeastLoaded(s, i)
  {
    if |s| == 1 then 0 else
      var k := 1 + LeastLoaded(s[1..]);
      assert forall j :: 0 < j < |s| ==> s[j] == s[1..][j - 1];
      if s[k].load < s[0].load then k else 0
  }

  function Omit(m: Master, mails: set<MailId>): Master
  {
    m.(slaves := Keep(m.slaves, mails), killed := m.killed + Drop(m.slaves, mails))
  }

  function Assign(m: Master, sub: SubId, from: MailId): Master
    requires 0 < |m.slaves|
  {
    var i := LeastLoaded(m.slaves);
    m.(slaves := m.slaves[i := m.slaves[i].(load := m.slaves[i].load + 1)],
       active := m.active[sub := ActiveSub(from, m.slaves[i].mail)])
  }

  function RequestSub(m: Master, sub: SubId, from: MailId): Master
  {
    if (sub in m.active && HasMail(m.slaves, m.active[sub].slave)) || m.slaves == [] then m else Assign(m, sub, from)
  }

  /** A result whose slave is no longer in the inventory makes the master dereference nil. */
  function ReceiveResult(m: Master, sub: SubId): Master
  {
    if sub !in m.active then m else
      var i := IndexOfMail(m.slaves, m.active[sub].slave);
      var rest := m.(active := m.active - {sub});
      if i == |m.slaves| then rest.(crashed := true)
      else rest.(slaves := m.slaves[i := m.slaves[i].(load := m.slaves[i].load - 1)])
  }

  function BuryDead(m: Master, task: TaskId): Master
  {
    var n := m.(dead := m.dead + {task});
    if HasTask(m.slaves, task) then n.(slaves := WithoutTask(m.slaves, task))
    else if HasTask(m.killed, task) then n.(killed := WithoutTask(m.killed, task))
    else n.(pending := m.pending - {task})
  }

  function AddReady(m: Master, task: TaskId, mail: MailId, ok: bool): Master
  {
    if task !in m.pending || !ok then m
    else m.(slaves := m.slaves + [Slave(task, mail, 0)], pending := m.pending - {task}, usedMails := m.usedMails + {mail})
  }

  function Step(m: Master, e: Event): Master
  {
    if m.crashed then m else
      match e
      case StartSlave(task) => if task in m.seen then m else m.(pending := m.pending + {task}, seen := m.seen + {task})
      case TaskLaunched(_) => m
      case SlaveReady(task, mail, ok) => AddReady(m, task, mail, ok)
      case SlaveDead(task) => BuryDead(m, task)
      case Kill(mails) => Omit(m, mails)
      case SubRequest(sub, from) => RequestSub(m, sub, from)
      case SubResult(sub) => ReceiveResult(m, sub)
  }

  function Run(m: Master, events: seq<Event>): Master
    decreases |events|
  {
    if events == [] then m else Run(Step(m, events[0]), events[1..])
  }
}

/** The life of a slave: pending, active, killed, gone. */
module SlaveLifecycle {
  import opened Filtering
  import opened MasterModel

  function Count(s: seq<Slave>, task: TaskId): nat
  {
    if s == [] then 0 else (if s[0].task == task then 1 else 0) + Count(s[1..], task)
  }

  /** How often a task appears among pending, active and killed slaves. */
  function Occurrences(m: Master, task: TaskId): nat
  {
    Count(m.slaves, task) + Count(m.killed, task) + if task in m.pending then 1 else 0
  }

  ghost predicate OneLife(m: Master)
  {
    && m.dead <= m.seen
    && forall task :: Occurrences(m, task) <= (if task in m.seen && task !in m.dead then 1 else 0)
  }

  lemma {:induction false} CountAppend(s: seq<Slave>, t: seq<Slave>, task: TaskId)
    ensures Count(s + t, task) == Count(s, task) + Count(t, task)
  {
    if s == [] {
      assert s + t == t;
    } else {
      assert (s + t)[1..] == s[1..] + t;
      CountAppend(s[1..], t, task);
    }
  }

  /** Omitting moves slaves from one list to the other and loses none. */
  lemma {:induction false} KeepAndDrop(s: seq<Slave>, mails: set<MailId>, task: TaskId)
    ensures Count(Keep(s, mails), task) + Count(Drop(s, mails), task) == Count(s, task)
  {
    if s != [] {
      KeepAndDrop(s[1..], mails, task);
      CountAppend(if s[0].mail in mails then [] else [s[0]], Keep(s[1..], mails), task);
      CountAppend(if s[0].mail in mails then [s[0]] else [], Drop(s[1..], mails), task);
    }
  }

  lemma {:induction false} WithoutTaskCounts(s: seq<Slave>, gone: TaskId, task: TaskId)
    ensures Count(WithoutTask(s, gone), task) == if task == gone then 0 else Count(s, task)
  {
    if s != [] {
      WithoutTaskCounts(s[1..], gone, task);
      CountAppend(if s[0].task == gone then [] else [s[0]], WithoutTask(s[1..], gone), task);
    }
  }

  lemma {:induction false} HasTaskCounts(s: seq<Slave>, task: TaskId)
    ensures HasTask(s, task) <==> 0 < Count(s, task)
  {
    if s != [] {
      HasTaskCounts(s[1..], task);
      assert forall i :: 0 < i < |s| ==> s[i] == s[1..][i - 1];
      if HasTask(s[1..], task) {
        var i :| 0 <= i < |s[1..]| && s[1..][i].task == task;
        assert s[i + 1].task == task;
      }
    }
  }

  /** Leaving out the slaves of one task removes these and no others, and keeps the order. */
  lemma {:induction false} WithoutTaskIsExact(s: seq<Slave>, task: TaskId)
    ensures forall x: Slave :: multiset(WithoutTask(s, task))[x] == if x.task == task then 0 else multiset(s)[x]
    ensures InOrder(WithoutTask(s, task), s)
  {
    if s == [] {
      NothingInOrder(s);
    } else {
      var rest := WithoutTask(s[1..], task);
      WithoutTaskIsExact(s[1..], task);
      OneMoreInOrder(rest, s);
      assert s == [s[0]] + s[1..];
      assert WithoutTask(s, task) == if s[0].task == task then rest else [s[0]] + rest;
    }
  }

  /** Keeping: each slave with another mail id stays as often as it was there, in the old order. */
  lemma {:induction false} KeepIsExact(s: seq<Slave>, mails: set<MailId>)
    ensures forall x: Slave :: multiset(Keep(s, mails))[x] == if x.mail in mails then 0 else multiset(s)[x]
    ensures InOrder(Keep(s, mails), s)
  {
    if s == [] {
      NothingInOrder(s);
    } else {
      var rest := Keep(s[1..], mails);
      KeepIsExact(s[1..], mails);
      OneMoreInOrder(rest, s);
      assert s == [s[0]] + s[1..];
      assert Keep(s, mails) == if s[0].mail in mails then rest else [s[0]] + rest;
    }
  }

  /** Dropping: the same for the slaves with one of the mail ids. */
  lemma {:induction false} DropIsExact(s: seq<Slave>, mails: set<MailId>)
    ensures forall x: Slave :: multiset(Drop(s, mails))[x] == if x.mail in mails then multiset(s)[x] else 0
    ensures InOrder(Drop(s, mails), s)
  {
    if s == [] {
      NothingInOrder(s);
    } else {
      var rest := Drop(s[1..], mails);
      DropIsExact(s[1..], mails);
      OneMoreInOrder(rest, s);
      assert s == [s[0]] + s[1..];
      assert Drop(s, mails) == if s[0].mail in mails then [s[0]] + rest else rest;
    }
  }

  lemma {:induction false} SameTasksSameCount(s: seq<Slave>, t: seq<Slave>, task: TaskId)
    requires |s| == |t| && forall i :: 0 <= i < |s| ==> s[i].task == t[i].task
    ensures Count(s, task) == Count(t, task)
  {
    if s != [] {
      SameTasksSameCount(s[1..], t[1..], task);
    }
  }

  lemma {:induction false} StepKeepsOneLife(m: Master, e: Event)
    requires OneLife(m)
    requires e.SlaveDead? ==> e.task in m.seen
    ensures OneLife(Step(m, e))
    ensures m.dead <= Step(m, e).dead
  {
    var n := Step(m, e);
    forall task ensures Occurrences(n, task) <= (if task in n.seen && task !in n.dead then 1 else 0) {
      assert Occurrences(m, task) <= (if task in m.seen && task !in m.dead then 1 else 0);
      OccurrencesAfter(m, e, task);
    }
  }

  lemma {:induction false} OccurrencesAfter(m: Master, e: Event, task: TaskId)
    requires m.dead <= m.seen
    requires Occurrences(m, task) <= (if task in m.seen && task !in m.dead then 1 else 0)
    ensures var n := Step(m, e);
            Occurrences(n, task) <= (if task in n.seen && task !in n.dead then 1 else 0)
  {
    if !m.crashed {
      match e
      case SlaveReady(ready, mail, _) => CountAppend(m.slaves, [Slave(ready, mail, 0)], task);
      case SlaveDead(gone) =>
        HasTaskCounts(m.slaves, gone);
        HasTaskCounts(m.killed, gone);
        WithoutTaskCounts(m.slaves, gone, task);
        WithoutTaskCounts(m.killed, gone, task);
      case Kill(mails) =>
        KeepAndDrop(m.slaves, mails, task);
        CountAppend(m.killed, Drop(m.slaves, mails), task);
      case SubRequest(_, _) => SameTasksSameCount(m.slaves, Step(m, e).slaves, task);
      case SubResult(_) => SameTasksSameCount(m.slaves, Step(m, e).slaves, task);
      case _ =>
    }
  }

  /** Death mails come from processes the scheduler started, so from tasks that were scheduled. */
  ghost predicate DeathsAreOfScheduled(m: Master, events: seq<Event>)
    decreases |events|
  {
    events == [] ||
    ((events[0].SlaveDead? ==> events[0].task in m.seen) && DeathsAreOfScheduled(Step(m, events[0]), events[1..]))
  }

  /** Under any order and repetition of mails, a task is in at most one of the three places, and in none of them
      for ever once its death has been handled. */
  lemma {:induction false} SlavesLiveOnce(m: Master, events: seq<Event>)
    requires OneLife(m) && DeathsAreOfScheduled(m, events)
    ensures var n := Run(m, events);
            OneLife(n) && m.dead <= n.dead && forall task :: task in m.dead ==> Occurrences(n, task) == 0
    decreases |events|
  {
    if events == [] {
      assert forall task :: task in m.dead ==> Occurrences(m, task) <= 0;
    } else {
      StepKeepsOneLife(m, events[0]);
      SlavesLiveOnce(Step(m, events[0]), events[1..]);
    }
  }

  lemma InitHasOneLife()
    ensures OneLife(Init())
  {
  }
}

/** The load counters and the index of active submissions. */
module SlaveLoads {
  import opened Options
  import opened MasterModel

  ghost function ActiveOn(active: map<SubId, ActiveSub>, mail: MailId): set<SubId>
  {
    set sub | sub in active && active[sub].slave == mail
  }

  ghost predicate CounterExact(m: Master, i: nat)
    requires i < |m.slaves|
  {
    m.slaves[i].load == |ActiveOn(m.active, m.slaves[i].mail)|
  }

  ghost predicate MailsDistinct(s: seq<Slave>)
  {
    forall i, j :: 0 <= i < j < |s| ==> s[i].mail != s[j].mail
  }

  ghost predicate LoadsExact(m: Master)
  {
    && MailsDistinct(m.slaves)
    && (forall i :: 0 <= i < |m.slaves| ==> m.slaves[i].mail in m.usedMails && CounterExact(m, i))
    && (forall sub :: sub in m.active ==> m.active[sub].slave in m.usedMails)
  }

  /** A slave that becomes ready gets a mail id no slave had before. */
  ghost predicate FreshMail(m: Master, e: Event) { e.SlaveReady? ==> e.mail !in m.usedMails }

  ghost predicate MailsNeverReused(m: Master, events: seq<Event>)
    decreases |events|
  {
    events == [] || (FreshMail(m, events[0]) && MailsNeverReused(Step(m, events[0]), events[1..]))
  }

  lemma ActiveOnAdds(active: map<SubId, ActiveSub>, sub: SubId, a: ActiveSub, mail: MailId)
    requires sub !in active || active[sub].slave != mail
    ensures |ActiveOn(active[sub := a], mail)| == |ActiveOn(active, mail)| + if a.slave == mail then 1 else 0
  {
    var more := active[sub := a];
    assert forall u :: u in ActiveOn(more, mail) <==> u in ActiveOn(active, mail) || (u == sub && a.slave == mail);
    assert ActiveOn(more, mail) == ActiveOn(active, mail) + if a.slave == mail then {sub} else {};
  }

  lemma ActiveOnRemoves(active: map<SubId, ActiveSub>, sub: SubId, mail: MailId)
    requires sub in active
    ensures |ActiveOn(active - {sub}, mail)| == |ActiveOn(active, mail)| - if active[sub].slave == mail then 1 else 0
  {
    var rest := active - {sub};
    assert rest[sub := active[sub]] == active;
    ActiveOnAdds(rest, sub, active[sub], mail);
  }

  lemma {:induction false} RequestKeepsExact(m: Master, sub: SubId, from: MailId)
    requires LoadsExact(m)
    ensures LoadsExact(RequestSub(m, sub, from))
  {
    var n := RequestSub(m, sub, from);
    if n != m {
      forall i | 0 <= i < |n.slaves| ensures n.slaves[i].mail in n.usedMails && CounterExact(n, i) {
        assert CounterExact(m, i);
        assert sub in m.active ==> m.active[sub].slave != m.slaves[i].mail;
        ActiveOnAdds(m.active, sub, n.active[sub], m.slaves[i].mail);
      }
    }
  }

  lemma {:induction false} ResultKeepsExact(m: Master, sub: SubId)
    requires LoadsExact(m)
    ensures LoadsExact(ReceiveResult(m, sub))
  {
    var n := ReceiveResult(m, sub);
    if sub in m.active {
      forall i | 0 <= i < |n.slaves| ensures n.slaves[i].mail in n.usedMails && CounterExact(n, i) {
        assert CounterExact(m, i);
        ActiveOnRemoves(m.active, sub, m.slaves[i].mail);
      }
    }
  }

  /** `t` is `s` with some slaves left out. */
  ghost predicate SubsetOf(t: seq<Slave>, s: seq<Slave>) { MailsDistinct(t) && forall x :: x in t ==> x in s }

  lemma {:induction false} KeepIsSubset(s: seq<Slave>, mails: set<MailId>)
    requires MailsDistinct(s)
    ensures SubsetOf(Keep(s, mails), s)
    ensures forall x :: x in Keep(s, mails) <==> x in s && x.mail !in mails
  {
    if s != [] {
      KeepIsSubset(s[1..], mails);
      assert s == [s[0]] + s[1..];
      var rest := Keep(s[1..], mails);
      forall j | 0 <= j < |rest| ensures rest[j].mail != s[0].mail {
        assert rest[j] in s[1..];
        var k :| 0 <= k < |s[1..]| && s[1..][k] == rest[j];
        assert s[k + 1].mail != s[0].mail;
      }
    }
  }

  lemma {:induction false} WithoutTaskIsSubset(s: seq<Slave>, task: TaskId)
    requires MailsDistinct(s)
    ensures SubsetOf(WithoutTask(s, task), s)
    ensures forall x :: x in WithoutTask(s, task) <==> x in s && x.task != task
  {
    if s != [] {
      WithoutTaskIsSubset(s[1..], task);
      assert s == [s[0]] + s[1..];
      var rest := WithoutTask(s[1..], task);
      forall j | 0 <= j < |rest| ensures rest[j].mail != s[0].mail {
        assert rest[j] in s[1..];
        var k :| 0 <= k < |s[1..]| && s[1..][k] == rest[j];
        assert s[k + 1].mail != s[0].mail;
      }
    }
  }

  lemma {:induction false} SubsetKeepsExact(m: Master, n: Master)
    requires LoadsExact(m) && SubsetOf(n.slaves, m.slaves) && n.active == m.active && n.usedMails == m.usedMails
    ensures LoadsExact(n)
  {
    forall i | 0 <= i < |n.slaves| ensures n.slaves[i].mail in n.usedMails && CounterExact(n, i) {
      assert n.slaves[i] in m.slaves;
      var k :| 0 <= k < |m.slaves| && m.slaves[k] == n.slaves[i];
      assert CounterExact(m, k);
    }
  }

  lemma {:induction false} ReadyKeepsExact(m: Master, task: TaskId, mail: MailId, ok: bool)
    requires LoadsExact(m) && mail !in m.usedMails
    ensures LoadsExact(AddReady(m, task, mail, ok))
  {
    var n := AddReady(m, task, mail, ok);
    if n != m {
      assert ActiveOn(m.active, mail) == {};
      forall i | 0 <= i < |n.slaves| ensures n.slaves[i].mail in n.usedMails && CounterExact(n, i) {
        assert i < |m.slaves| ==> CounterExact(m, i);
      }
    }
  }

  lemma {:induction false} StepKeepsExact(m: Master, e: Event)
    requires LoadsExact(m) && FreshMail(m, e)
    ensures LoadsExact(Step(m, e))
  {
    if !m.crashed {
      match e
      case SlaveReady(task, mail, ok) => ReadyKeepsExact(m, task, mail, ok);
      case SlaveDead(task) =>
        WithoutTaskIsSubset(m.slaves, task);
        SubsetKeepsExact(m, BuryDead(m, task));
      case Kill(mails) =>
        KeepIsSubset(m.slaves, mails);
        SubsetKeepsExact(m, Omit(m, mails));
      case SubRequest(sub, from) => RequestKeepsExact(m, sub, from);
      case SubResult(sub) => ResultKeepsExact(m, sub);
      case _ =>
    }
  }

  /** Duplicate requests, reassignments after a lost slave and late results included, every inventoried slave's
      counter is the number of active submissions that name it. */
  lemma {:induction false} CountersAgreeWithIndex(m: Master, events: seq<Event>)
    requires LoadsExact(m) && MailsNeverReused(m, events)
    ensures var n := Run(m, events);
            LoadsExact(n) && forall i :: 0 <= i < |n.slaves| ==> 0 <= n.slaves[i].load
    decreases |events|
  {
    if events == [] {
      assert forall i :: 0 <= i < |m.slaves| ==> CounterExact(m, i);
    } else {
      StepKeepsExact(m, events[0]);
      CountersAgreeWithIndex(Step(m, events[0]), events[1..]);
    }
  }

  // ---- The nil slave ----

  /** A result for a submission that is active on a slave no longer in the inventory. */
  predicate OrphanResult(m: Master, e: Event)
  {
    e.SubResult? && e.sub in m.active && !HasMail(m.slaves, m.active[e.sub].slave)
  }

  /** Somewhere along the run such a result arrives. */
  predicate MeetsOrphan(m: Master, events: seq<Event>)
    decreases |events|
  {
    events != [] && (OrphanResult(m, events[0]) || MeetsOrphan(Step(m, events[0]), events[1..]))
  }

  lemma {:induction false} CrashIsFinal(m: Master, events: seq<Event>)
    requires m.crashed
    ensures Run(m, events) == m
    decreases |events|
  {
    if events != [] {
      CrashIsFinal(m, events[1..]);
    }
  }

  /** A run crashes the master exactly when an orphaned result arrives in it. */
  lemma {:induction false} RunCrashesIff(m: Master, events: seq<Event>)
    requires !m.crashed
    ensures Run(m, events).crashed <==> MeetsOrphan(m, events)
    decreases |events|
  {
    if events != [] {
      var n := Step(m, events[0]);
      assert n.crashed <==> OrphanResult(m, events[0]);
      if n.crashed {
        CrashIsFinal(n, events[1..]);
      } else {
        RunCrashesIff(n, events[1..]);
      }
    }
  }

  lemma {:induction false} RunFirst(m: Master, e: Event, rest: seq<Event>)
    ensures Run(m, [e] + rest) == Run(Step(m, e), rest)
  {
    assert ([e] + rest)[1..] == rest;
  }

  /** A slave that is killed while it works leaves its submission orphaned. */
  lemma KilledWhileWorking()
    ensures var m := Step(Step(Init(), StartSlave(1)), SlaveReady(1, 5, true));
            m.slaves == [Slave(1, 5, 0)] && !m.crashed && m.active == map[]
            && OrphanResult(Step(Step(m, SubRequest(9, 0)), Kill({5})), SubResult(9))
  {
    var m := Step(Step(Init(), StartSlave(1)), SlaveReady(1, 5, true));
    assert m.slaves == [] + [Slave(1, 5, 0)] == [Slave(1, 5, 0)];
    var asked := Step(m, SubRequest(9, 0));
    assert asked.slaves == [Slave(1, 5, 1)] && asked.slaves[1..] == [];
    assert asked.active[9] == ActiveSub(0, 5);
    assert Keep(asked.slaves, {5}) == [] + Keep([], {5});
  }

  /** And then its result crashes the master. */
  lemma KilledSlaveThenResultCrashes()
    ensures Run(Init(), [StartSlave(1), SlaveReady(1, 5, true), SubRequest(9, 0), Kill({5}), SubResult(9)]).crashed
  {
    KilledWhileWorking();
    var m1 := Step(Init(), StartSlave(1));
    var m2 := Step(m1, SlaveReady(1, 5, true));
    var m3 := Step(m2, SubRequest(9, 0));
    var m4 := Step(m3, Kill({5}));
    RunFirst(m4, SubResult(9), []);
    RunFirst(m3, Kill({5}), [SubResult(9)]);
    RunFirst(m2, SubRequest(9, 0), [Kill({5}), SubResult(9)]);
    RunFirst(m1, SlaveReady(1, 5, true), [SubRequest(9, 0), Kill({5}), SubResult(9)]);
    RunFirst(Init(), StartSlave(1), [SlaveReady(1, 5, true), SubRequest(9, 0), Kill({5}), SubResult(9)]);
  }

  ghost predicate NoOrphans(m: Master) { forall sub :: sub in m.active ==> HasMail(m.slaves, m.active[sub].slave) }

  /** The states some mail can crash are those with an active submission whose slave has left the inventory. */
  lemma CanCrashIff(m: Master)
    requires !m.crashed
    ensures (exists e :: Step(m, e).crashed) <==> !NoOrphans(m)
  {
    if !NoOrphans(m) {
      var sub :| sub in m.active && !HasMail(m.slaves, m.active[sub].slave);
      assert Step(m, SubResult(sub)).crashed;
    }
  }

  /** The slaves the event takes out of the inventory have nothing to do. */
  ghost predicate LeavesIdle(m: Master, e: Event)
  {
    match e
    case Kill(mails) => forall x :: x in m.slaves && x.mail in mails ==> x.load == 0
    case SlaveDead(task) => forall x :: x in m.slaves && x.task == task ==> x.load == 0
    case _ => true
  }

  ghost predicate OnlyIdleSlavesLeave(m: Master, events: seq<Event>)
    decreases |events|
  {
    events == [] || (LeavesIdle(m, events[0]) && OnlyIdleSlavesLeave(Step(m, events[0]), events[1..]))
  }

  lemma {:induction false} BusySlaveStays(m: Master, n: Master, sub: SubId)
    requires LoadsExact(m) && sub in m.active && HasMail(m.slaves, m.active[sub].slave)
    requires forall x :: x in m.slaves && x.load != 0 ==> x in n.slaves
    ensures HasMail(n.slaves, m.active[sub].slave)
  {
    var i :| 0 <= i < |m.slaves| && m.slaves[i].mail == m.active[sub].slave;
    assert CounterExact(m, i);
    assert sub in ActiveOn(m.active, m.slaves[i].mail);
    assert m.slaves[i] in n.slaves;
    var j :| 0 <= j < |n.slaves| && n.slaves[j] == m.slaves[i];
  }

  lemma {:induction false} SameMailsSameHomes(s: seq<Slave>, t: seq<Slave>, mail: MailId)
    requires |s| <= |t| && forall i :: 0 <= i < |s| ==> t[i].mail == s[i].mail
    requires HasMail(s, mail)
    ensures HasMail(t, mail)
  {
    var i :| 0 <= i < |s| && s[i].mail == mail;
    assert t[i].mail == mail;
  }

  lemma {:induction false} DepartureLeavesNoOrphans(m: Master, e: Event)
    requires !m.crashed && LoadsExact(m) && NoOrphans(m) && LeavesIdle(m, e) && (e.Kill? || e.SlaveDead?)
    ensures NoOrphans(Step(m, e))
  {
    var n := Step(m, e);
    if e.Kill? {
      KeepIsSubset(m.slaves, e.mails);
    } else {
      WithoutTaskIsSubset(m.slaves, e.task);
    }
    forall sub | sub in n.active ensures HasMail(n.slaves, n.active[sub].slave) {
      BusySlaveStays(m, n, sub);
    }
  }

  lemma {:induction false} RequestLeavesNoOrphans(m: Master, sub: SubId, from: MailId)
    requires NoOrphans(m)
    ensures NoOrphans(RequestSub(m, sub, from))
  {
    var n := RequestSub(m, sub, from);
    if n != m {
      forall other | other in n.active ensures HasMail(n.slaves, n.active[other].slave) {
        if other == sub {
          assert n.slaves[LeastLoaded(m.slaves)].mail == n.active[sub].slave;
        } else {
          SameMailsSameHomes(m.slaves, n.slaves, m.active[other].slave);
        }
      }
    }
  }

  lemma {:induction false} SameHomesLeaveNoOrphans(m: Master, n: Master)
    requires NoOrphans(m) && |m.slaves| <= |n.slaves|
    requires forall i :: 0 <= i < |m.slaves| ==> n.slaves[i].mail == m.slaves[i].mail
    requires forall sub :: sub in n.active ==> sub in m.active && n.active[sub] == m.active[sub]
    ensures NoOrphans(n)
  {
    forall sub | sub in n.active ensures HasMail(n.slaves, n.active[sub].slave) {
      SameMailsSameHomes(m.slaves, n.slaves, m.active[sub].slave);
    }
  }

  lemma {:induction false} StepLeavesNoOrphans(m: Master, e: Event)
    requires !m.crashed && LoadsExact(m) && NoOrphans(m) && LeavesIdle(m, e)
    ensures NoOrphans(Step(m, e)) && !Step(m, e).crashed
  {
    match e
    case Kill(_) => DepartureLeavesNoOrphans(m, e);
    case SlaveDead(_) => DepartureLeavesNoOrphans(m, e);
    case SubRequest(sub, from) => RequestLeavesNoOrphans(m, sub, from);
    case _ => SameHomesLeaveNoOrphans(m, Step(m, e));
  }

  /** The master never meets the nil slave on a run in which only idle slaves are killed or die. */
  lemma {:induction false} IdleDeparturesNeverCrash(m: Master, events: seq<Event>)
    requires !m.crashed && LoadsExact(m) && NoOrphans(m)
    requires MailsNeverReused(m, events) && OnlyIdleSlavesLeave(m, events)
    ensures !Run(m, events).crashed
    decreases |events|
  {
    if events != [] {
      StepKeepsExact(m, events[0]);
      StepLeavesNoOrphans(m, events[0]);
      IdleDeparturesNeverCrash(Step(m, events[0]), events[1..]);
    }
  }

  // ---- Balance ----

  ghost predicate Balanced(s: seq<Slave>)
  {
    forall i, j :: 0 <= i < |s| && 0 <= j < |s| ==> s[i].load <= s[j].load + 1
  }

  /** A request for a submission that is not active yet. */
  ghost predicate FreshRequests(m: Master, events: seq<Event>)
    decreases |events|
  {
    events == [] ||
    (events[0].SubRequest? && events[0].sub !in m.active && FreshRequests(Step(m, events[0]), events[1..]))
  }

  function TotalLoad(s: seq<Slave>): int { if s == [] then 0 else s[0].load + TotalLoad(s[1..]) }

  lemma {:induction false} TotalLoadUpdate(s: seq<Slave>, i: nat)
    requires i < |s|
    ensures TotalLoad(s[i := s[i].(load := s[i].load + 1)]) == TotalLoad(s) + 1
  {
    var t := s[i := s[i].(load := s[i].load + 1)];
    if i == 0 {
      assert t[1..] == s[1..];
    } else {
      assert t[1..] == s[1..][i - 1 := s[1..][i - 1].(load := s[1..][i - 1].load + 1)];
      TotalLoadUpdate(s[1..], i - 1);
    }
  }

  /** From equal loads on, fresh requests are spread so that no slave has two more than another, and none is lost. */
  lemma {:induction false} FreshRequestsStayBalanced(m: Master, events: seq<Event>)
    requires !m.crashed && 0 < |m.slaves| && Balanced(m.slaves) && FreshRequests(m, events)
    ensures Balanced(Run(m, events).slaves)
    ensures TotalLoad(Run(m, events).slaves) == TotalLoad(m.slaves) + |events|
    decreases |events|
  {
    if events != [] {
      var n := Step(m, events[0]);
      TotalLoadUpdate(m.slaves, LeastLoaded(m.slaves));
      FreshRequestsStayBalanced(n, events[1..]);
    }
  }
}
