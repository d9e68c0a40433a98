/** The master as the program has it: fields its mail handlers rewrite. Each handler is a step of the machine. */
module MasterService {
  import opened Filtering
  import opened Options
  import opened Sorting
  import M = MasterModel
  import opened MasterModel
  import opened SlaveLifecycle
  import opened LoadReport

  /** What the master answers to a submission request. */
  datatype Reply = Ignored | NoSlave | AskedSlave(mail: MailId)

  lemma {:induction false} KeepAndDropAppend(s: seq<Slave>, x: Slave, mails: set<MailId>)
    ensures Keep(s + [x], mails) == Keep(s, mails) + if x.mail in mails then [] else [x]
    ensures Drop(s + [x], mails) == Drop(s, mails) + if x.mail in mails then [x] else []
  {
    if s == [] {
      assert [x][1..] == [] && [] + [x] == [x];
    } else {
      assert (s + [x])[1..] == s[1..] + [x];
      KeepAndDropAppend(s[1..], x, mails);
    }
  }

  lemma {:induction false} WithoutTaskAppend(s: seq<Slave>, x: Slave, task: TaskId)
    ensures WithoutTask(s + [x], task) == WithoutTask(s, task) + if x.task == task then [] else [x]
  {
    if s == [] {
      assert [x][1..] == [] && [] + [x] == [x];
    } else {
      var rest, last := WithoutTask(s[1..], task), if x.task == task then [] else [x];
      assert (s + [x])[1..] == s[1..] + [x];
      WithoutTaskAppend(s[1..], x, task);
      assert WithoutTask(s + [x], task) == (if s[0].task == task then [] else [s[0]]) + (rest + last);
    }
  }

  lemma {:induction false} WithoutStranger(s: seq<Slave>, task: TaskId)
    requires !HasTask(s, task)
    ensures WithoutTask(s, task) == s
  {
    if s != [] {
      assert forall i :: 0 <= i < |s[1..]| ==> s[1..][i] == s[i + 1];
      WithoutStranger(s[1..], task);
    }
  }

  lemma {:induction false} StartAllAppend(m: M.Master, outcomes: seq<Option<TaskId>>, o: Option<TaskId>)
    ensures StartAll(m, outcomes + [o])
         == var n := StartAll(m, outcomes); if o.Some? then Step(n, M.StartSlave(o.value)) else n
    decreases |outcomes|
  {
    if outcomes == [] {
      assert [o][1..] == [];
    } else {
      assert (outcomes + [o])[1..] == outcomes[1..] + [o];
      StartAllAppend(if outcomes[0].Some? then Step(m, M.StartSlave(outcomes[0].value)) else m, outcomes[1..], o);
    }
  }

  /** One slave that nobody had less to do than has one submission more; the others are as before. */
  ghost predicate IsAsked(before: seq<Slave>, after: seq<Slave>, k: int, mail: MailId)
  {
    && 0 <= k < |before| == |after|
    && before[k].mail == mail && after[k] == Slave(before[k].task, mail, before[k].load + 1)
    && (forall i :: 0 <= i < |before| ==> before[k].load <= before[i].load)
    && (forall i :: 0 <= i < |before| && i != k ==> after[i] == before[i])
  }

  /** The slave has one submission less; the others are as before. */
  ghost predicate HasFinished(before: seq<Slave>, after: seq<Slave>, k: int, mail: MailId)
  {
    && 0 <= k < |before| == |after|
    && before[k].mail == mail && after[k] == Slave(before[k].task, mail, before[k].load - 1)
    && (forall i :: 0 <= i < |before| && i != k ==> after[i] == before[i])
  }

  /** The slaves of the task are gone, all others are there in the old order. */
  ghost predicate Left(before: seq<Slave>, after: seq<Slave>, task: TaskId)
  {
    && (forall x: Slave :: multiset(after)[x] == if x.task == task then 0 else multiset(before)[x])
    && InOrder(after, before)
  }

  /** The slaves with these mail ids have moved to the end of the killed ones, all others stayed; both in order. */
  ghost predicate Split(before: seq<Slave>, after: seq<Slave>, killed: seq<Slave>, killedAfter: seq<Slave>, mails: set<MailId>)
  {
    && killed <= killedAfter
    && (forall x: Slave :: multiset(after)[x] == if x.mail in mails then 0 else multiset(before)[x])
    && (forall x: Slave :: multiset(killedAfter[|killed|..])[x] == if x.mail in mails then multiset(before)[x] else 0)
    && InOrder(after, before) && InOrder(killedAfter[|killed|..], before)
  }

  /** A death mail takes the slaves of its task, and only these, out of one list: the active ones if it is among them,
      else the killed ones, else the pending ones. */
  lemma DeathTakesOnlyItsTask(m: M.Master, task: TaskId)
    requires !m.crashed
    ensures var n := Step(m, M.SlaveDead(task));
            && Left(m.slaves, n.slaves, task) && n.active == m.active
            && (HasTask(m.slaves, task) ==> n.killed == m.killed && n.pending == m.pending)
            && (!HasTask(m.slaves, task) ==> n.slaves == m.slaves && Left(m.killed, n.killed, task))
            && (!HasTask(m.slaves, task) && HasTask(m.killed, task) ==> n.pending == m.pending)
            && (!HasTask(m.slaves, task) && !HasTask(m.killed, task) ==> n.killed == m.killed && n.pending == m.pending - {task})
  {
    WithoutTaskIsExact(m.slaves, task);
    WithoutTaskIsExact(m.killed, task);
    if !HasTask(m.slaves, task) {
      WithoutStranger(m.slaves, task);
    }
    if !HasTask(m.killed, task) {
      WithoutStranger(m.killed, task);
    }
  }

  lemma OmittingSplits(s: seq<Slave>, killed: seq<Slave>, mails: set<MailId>)
    ensures Split(s, Keep(s, mails), killed, killed + Drop(s, mails), mails)
  {
    KeepIsExact(s, mails);
    DropIsExact(s, mails);
    assert (killed + Drop(s, mails))[|killed|..] == Drop(s, mails);
  }

  class Master {
    var slaves: seq<Slave>
    var pendingSlaves: set<TaskId>
    var killedSlaves: seq<Slave>
    var activeSubmissions: map<SubId, ActiveSub>
    var crashed: bool
    ghost var seen: set<TaskId>
    ghost var dead: set<TaskId>
    ghost var usedMails: set<MailId>

    ghost function State(): M.Master
      reads this
    {
      M.Master(slaves, pendingSlaves, killedSlaves, activeSubmissions, crashed, seen, dead, usedMails)
    }

    constructor ()
      ensures State() == M.Init()
    {
      slaves, pendingSlaves, killedSlaves, activeSubmissions := [], {}, [], map[];
      crashed := false;
      seen, dead, usedMails := {}, {}, {};
    }

    /** The position of the first slave with the mail id, or past the end. */
    method GetSlaveByMailID(id: MailId) returns (i: nat)
      ensures i <= |slaves|
      ensures forall k :: 0 <= k < i ==> slaves[k].mail != id
      ensures i < |slaves| ==> slaves[i].mail == id
      ensures i == IndexOfMail(slaves, id)
    {
      i := 0;
      while i < |slaves| && slaves[i].mail != id
        invariant i <= |slaves|
        invariant forall k :: 0 <= k < i ==> slaves[k].mail != id
      {
        i := i + 1;
      }
    }

    method SlaveExist(id: MailId) returns (found: bool)
      ensures found <==> exists i :: 0 <= i < |slaves| && slaves[i].mail == id
    {
      found := false;
      for n := 0 to |slaves|
        invariant !found
        invariant forall k :: 0 <= k < n ==> slaves[k].mail != id
      {
        if slaves[n].mail == id {
          return true;
        }
      }
    }

    /** The slave with the fewest active submissions, the first such one. */
    method NextSlave() returns (next: nat)
      requires 0 < |slaves|
      ensures FirstLeastLoaded(slaves, next)
      ensures next < |slaves| && forall k :: 0 <= k < |slaves| ==> slaves[next].load <= slaves[k].load
      ensures forall k :: 0 <= k < next ==> slaves[next].load < slaves[k].load
    {
      next := 0;
      for n := 0 to |slaves|
        invariant next < |slaves| && next <= n
        invariant forall k :: 0 <= k < n ==> slaves[next].load <= slaves[k].load
        invariant forall k :: 0 <= k < next ==> slaves[next].load < slaves[k].load
      {
        if slaves[n].load < slaves[next].load {
          next := n;
        }
      }
    }

    method HandleCfSubRequest(sub: SubId, from: MailId) returns (reply: Reply)
      requires !crashed
      modifies this`slaves, this`activeSubmissions
      ensures State() == Step(old(State()), M.SubRequest(sub, from))
      ensures reply.Ignored? <==> sub in old(activeSubmissions) && HasMail(old(slaves), old(activeSubmissions)[sub].slave)
      ensures reply.NoSlave? <==> !reply.Ignored? && |old(slaves)| == 0
      ensures !reply.AskedSlave? ==> slaves == old(slaves) && activeSubmissions == old(activeSubmissions)
      ensures reply.AskedSlave? ==>
                && activeSubmissions == old(activeSubmissions)[sub := ActiveSub(from, reply.mail)]
                && |slaves| == |old(slaves)|
                && exists k :: IsAsked(old(slaves), slaves, k, reply.mail)
    {
      if sub in activeSubmissions {
        var slaveExist := SlaveExist(activeSubmissions[sub].slave);
        if slaveExist {
          return Ignored;
        }
      }
      if slaves == [] {
        return NoSlave;
      }
      var next := NextSlave();
      assert IsAsked(slaves, slaves[next := slaves[next].(load := slaves[next].load + 1)], next, slaves[next].mail);
      slaves := slaves[next := slaves[next].(load := slaves[next].load + 1)];
      activeSubmissions := activeSubmissions[sub := ActiveSub(from, slaves[next].mail)];
      reply := AskedSlave(slaves[next].mail);
    }

    /** Tells the watcher that asked; a result of a slave that left the inventory ends in a nil dereference. */
    method HandleCfSubResult(sub: SubId) returns (informed: Option<MailId>)
      requires !crashed
      modifies this`slaves, this`activeSubmissions, this`crashed
      ensures State() == Step(old(State()), M.SubResult(sub))
      ensures informed == if sub in old(activeSubmissions) then Some(old(activeSubmissions)[sub].from) else None
      ensures activeSubmissions == old(activeSubmissions) - {sub}
      ensures crashed <==> sub in old(activeSubmissions) && forall k :: 0 <= k < |old(slaves)| ==>
                             old(slaves)[k].mail != old(activeSubmissions)[sub].slave
      ensures sub !in old(activeSubmissions) || crashed ==> slaves == old(slaves)
      ensures sub in old(activeSubmissions) && !crashed ==>
                exists k :: HasFinished(old(slaves), slaves, k, old(activeSubmissions)[sub].slave)
    {
      if sub !in activeSubmissions {
        return None;
      }
      var actSub := activeSubmissions[sub];
      informed := Some(actSub.from);
      activeSubmissions := activeSubmissions - {sub};
      var i := GetSlaveByMailID(actSub.slave);
      if i == |slaves| {
        crashed := true;
        return;
      }
      assert HasFinished(slaves, slaves[i := slaves[i].(load := slaves[i].load - 1)], i, actSub.slave);
      slaves := slaves[i := slaves[i].(load := slaves[i].load - 1)];
    }

    method HandleSlaveReady(task: TaskId, mail: MailId, ok: bool)
      requires !crashed
      modifies this`slaves, this`pendingSlaves, this`usedMails
      ensures State() == Step(old(State()), M.SlaveReady(task, mail, ok))
      ensures task in old(pendingSlaves) && ok ==>
                slaves == old(slaves) + [Slave(task, mail, 0)] && pendingSlaves == old(pendingSlaves) - {task}
      ensures !(task in old(pendingSlaves) && ok) ==> slaves == old(slaves) && pendingSlaves == old(pendingSlaves)
    {
      if task !in pendingSlaves {
        return;
      }
      if !ok {
        return;
      }
      slaves := slaves + [Slave(task, mail, 0)];
      usedMails := usedMails + {mail};
      pendingSlaves := pendingSlaves - {task};
    }

    method {:induction false} HandleDeadSlave(task: TaskId)
      requires !crashed
      modifies this`slaves, this`pendingSlaves, this`killedSlaves, this`dead
      ensures State() == Step(old(State()), M.SlaveDead(task))
      ensures pendingSlaves == if HasTask(old(slaves), task) || HasTask(old(killedSlaves), task)
                               then old(pendingSlaves) else old(pendingSlaves) - {task}
    {
      dead := dead + {task};
      var found := IsActive(task);
      if !found {
        found := ForgetKilled(task);
        if !found {
          pendingSlaves := pendingSlaves - {task};
          return;
        }
      }
      RemoveDead(task);
    }

    method IsActive(task: TaskId) returns (found: bool)
      ensures found <==> HasTask(slaves, task)
    {
      found := false;
      var i := 0;
      while i < |slaves| && !found
        invariant i <= |slaves|
        invariant found <==> exists k :: 0 <= k < i && slaves[k].task == task
      {
        found := slaves[i].task == task;
        i := i + 1;
      }
    }

    method ForgetKilled(task: TaskId) returns (found: bool)
      modifies this`killedSlaves
      ensures found <==> HasTask(old(killedSlaves), task)
      ensures killedSlaves == WithoutTask(old(killedSlaves), task)
      ensures !found ==> killedSlaves == old(killedSlaves)
    {

      found := false;
      var stillKilled: seq<Slave> := [];
      for n := 0 to |killedSlaves|
        invariant killedSlaves == old(killedSlaves)
        invariant stillKilled == WithoutTask(killedSlaves[..n], task)
        invariant found <==> exists k :: 0 <= k < n && killedSlaves[k].task == task
      {
        assert killedSlaves[..n + 1] == killedSlaves[..n] + [killedSlaves[n]];
        WithoutTaskAppend(killedSlaves[..n], killedSlaves[n], task);
        if killedSlaves[n].task == task {
          found := true;
        } else {
          stillKilled := stillKilled + [killedSlaves[n]];
        }
      }
      assert killedSlaves[..|killedSlaves|] == killedSlaves;
      if !found {
        WithoutStranger(killedSlaves, task);
      }
      killedSlaves := stillKilled;
    }

    method RemoveDead(task: TaskId)
      modifies this`slaves
      ensures slaves == WithoutTask(old(slaves), task)
      ensures !HasTask(old(slaves), task) ==> slaves == old(slaves)
    {

      if !HasTask(slaves, task) {
        WithoutStranger(slaves, task);
      }
      var newSlaves: seq<Slave> := [];
      for n := 0 to |slaves|
        invariant slaves == old(slaves)
        invariant newSlaves == WithoutTask(slaves[..n], task)
      {
        assert slaves[..n + 1] == slaves[..n] + [slaves[n]];
        WithoutTaskAppend(slaves[..n], slaves[n], task);
        if slaves[n].task != task {
          newSlaves := newSlaves + [slaves[n]];
        }
      }
      assert slaves[..|slaves|] == slaves;
      slaves := newSlaves;
    }

    method OmitSlaves(mails: set<MailId>)
      modifies this`slaves, this`killedSlaves
      ensures State() == Omit(old(State()), mails)
      ensures Split(old(slaves), slaves, old(killedSlaves), killedSlaves, mails)
    {
      MoveOmitted(mails);
      OmittingSplits(old(slaves), old(killedSlaves), mails);
    }

    method MoveOmitted(mails: set<MailId>)
      modifies this`slaves, this`killedSlaves
      ensures slaves == Keep(old(slaves), mails) && killedSlaves == old(killedSlaves) + Drop(old(slaves), mails)
    {

      var finalSlaves: seq<Slave> := [];
      for n := 0 to |slaves|
        invariant slaves == old(slaves)
        invariant finalSlaves == Keep(slaves[..n], mails)
        invariant killedSlaves == old(killedSlaves) + Drop(slaves[..n], mails)
      {
        assert slaves[..n + 1] == slaves[..n] + [slaves[n]];
        KeepAndDropAppend(slaves[..n], slaves[n], mails);
        if slaves[n].mail in mails {
          killedSlaves := killedSlaves + [slaves[n]];
        } else {
          finalSlaves := finalSlaves + [slaves[n]];
        }
      }
      assert slaves[..|slaves|] == slaves;
      slaves := finalSlaves;
    }

    method KillSlaveWithID(mail: MailId, unkillable: set<TaskId>)
      requires !crashed
      modifies this`slaves, this`killedSlaves
      ensures State() == if HasMail(old(slaves), mail) && old(slaves)[IndexOfMail(old(slaves), mail)].task !in unkillable
                         then Step(old(State()), M.Kill({mail})) else old(State())
      ensures || (slaves == old(slaves) && killedSlaves == old(killedSlaves))
              || Split(old(slaves), slaves, old(killedSlaves), killedSlaves, {mail})
    {
      var i := GetSlaveByMailID(mail);
      if i == |slaves| {
        return;
      }
      if slaves[i].task in unkillable {
        return;
      }
      OmitSlaves({mail});
    }

    method KillLeastRecentlyUsedSlaves(asked: int, unkillable: set<TaskId>) returns (ghost order: seq<Slave>)
      modifies this`slaves, this`killedSlaves
      ensures LeastUsedFirst(order, old(slaves)) && |order| == |old(slaves)|
      ensures var num := if |order| < asked then |order| else if asked < 0 then 0 else asked;
              State() == Omit(old(State()), Omitted(order[..num], unkillable))
    {
      var num := if |slaves| < asked then |slaves| else asked;
      var omittedSlaves;
      omittedSlaves, order := AskToKill(num, unkillable);
      OmitSlaves(omittedSlaves);
    }

    /** The mail ids of those of the least used slaves that the scheduler agrees to kill. */
    method AskToKill(num: int, unkillable: set<TaskId>) returns (omittedSlaves: set<MailId>, ghost order: seq<Slave>)
      requires num <= |slaves|
      ensures LeastUsedFirst(order, slaves) && |order| == |slaves|
      ensures omittedSlaves == Omitted(order[..if num < 0 then 0 else num], unkillable)
    {
      var slavesClone := SortSlice(slaves, LessLoaded());
      order := slavesClone;
      assert |multiset(slavesClone)| == |multiset(slaves)|;
      omittedSlaves := {};
      var i := 0;
      while i < num
        invariant 0 <= i && (i <= num || i == 0)
        invariant omittedSlaves == Omitted(order[..i], unkillable)
      {
        assert order[..i + 1] == order[..i] + [order[i]];
        if slavesClone[i].task !in unkillable {
          omittedSlaves := omittedSlaves + {slavesClone[i].mail};
        }
        i := i + 1;
      }
    }

    /** Asks the scheduler for a task; `outcome` is the task id it returned, if any. */
    method StartSlave(outcome: Option<TaskId>)
      requires !crashed && (outcome.Some? ==> outcome.value !in seen)
      modifies this`pendingSlaves, this`seen
      ensures State() == if outcome.Some? then Step(old(State()), M.StartSlave(outcome.value)) else old(State())
      ensures pendingSlaves == if outcome.Some? then old(pendingSlaves) + {outcome.value} else old(pendingSlaves)
    {
      if outcome.Some? {
        pendingSlaves := pendingSlaves + {outcome.value};
        seen := seen + {outcome.value};
      }
    }

    method LaunchSlaves(missing: nat, total: nat, outcomes: seq<Option<TaskId>>) returns (priorities: seq<int>)
      requires !crashed && |outcomes| == missing && FreshTasks(State(), outcomes)
      modifies this`pendingSlaves, this`seen
      ensures State() == StartAll(old(State()), outcomes)
      ensures |priorities| == missing
      ensures forall i :: 0 <= i < missing ==> priorities[i] == LaunchPriority(total + i)
    {
      var currentPriority := LaunchPriority(total);
      priorities := [];
      for n := 0 to missing
        invariant !crashed && |priorities| == n && currentPriority == LaunchPriority(total + n)
        invariant State() == StartAll(old(State()), outcomes[..n])
        invariant FreshTasks(State(), outcomes[n..])
        invariant forall i :: 0 <= i < n ==> priorities[i] == LaunchPriority(total + i)
      {
        assert outcomes[..n + 1] == outcomes[..n] + [outcomes[n]];
        assert outcomes[n..][1..] == outcomes[n + 1..];
        StartAllAppend(old(State()), outcomes[..n], outcomes[n]);
        StartSlave(outcomes[n]);
        priorities := priorities + [currentPriority];
        currentPriority := if currentPriority - 10 < 30 then 30 else currentPriority - 10;
      }
      assert outcomes[..missing] == outcomes;
    }

    /** `outcomes` are the scheduler's answers to the launches, `unkillable` the tasks it refuses to kill. */
    method HandleLoadReport(avgLoad: real, avgSubMinutes: real, bots: nat, outcomes: seq<Option<TaskId>>,
                            unkillable: set<TaskId>)
      returns (priorities: seq<int>, ghost order: seq<Slave>)
      requires !crashed && FreshTasks(State(), outcomes)
      requires |outcomes| == Launches(State(), Cap(bots, Recommended(avgLoad, avgSubMinutes)))
      modifies this`slaves, this`killedSlaves, this`pendingSlaves, this`seen
      ensures Reported(old(State()), Cap(bots, Recommended(avgLoad, avgSubMinutes)), outcomes, order, unkillable, State())
      ensures |priorities| == |outcomes|
      ensures forall i :: 0 <= i < |priorities| ==>
                priorities[i] == LaunchPriority(|old(slaves)| + |old(pendingSlaves)| + i)
    {
      var recSlaves := Truncated(0.6 + avgLoad * avgSubMinutes);
      var capSlaves := if (bots + 1) / 2 < recSlaves then (bots + 1) / 2 else recSlaves;
      priorities, order := FitSlaves(capSlaves, outcomes, unkillable);
    }

    /** The rest of the handler, once the cap is known. */
    method FitSlaves(capSlaves: int, outcomes: seq<Option<TaskId>>, unkillable: set<TaskId>)
      returns (priorities: seq<int>, ghost order: seq<Slave>)
      requires !crashed && FreshTasks(State(), outcomes) && |outcomes| == Launches(State(), capSlaves)
      modifies this`slaves, this`killedSlaves, this`pendingSlaves, this`seen
      ensures Reported(old(State()), capSlaves, outcomes, order, unkillable, State())
      ensures |priorities| == |outcomes|
      ensures forall i :: 0 <= i < |priorities| ==>
                priorities[i] == LaunchPriority(|old(slaves)| + |old(pendingSlaves)| + i)
    {
      var totalSlaves := |slaves| + |pendingSlaves|;
      var minSlaves := if capSlaves < 1 then 1 else capSlaves;
      priorities, order := [], [];
      if totalSlaves < minSlaves {
        priorities := LaunchSlaves(minSlaves - totalSlaves, totalSlaves, outcomes);
      }
      ghost var launched := State();
      assert launched == StartAll(old(State()), outcomes);
      assert launched.slaves == old(slaves) by {
        StartAllKeepsSlaves(old(State()), outcomes);
      }
      if |slaves| > capSlaves {
        if |slaves| - 1 == capSlaves {
          return;
        }
        order := KillLeastRecentlyUsedSlaves(|slaves| - minSlaves, unkillable);
        NobodyOmitted(launched, order, unkillable);
      }
    }
  }

  function LaunchPriority(total: int): int { if 80 - 10 * total < 30 then 30 else 80 - 10 * total }

  /** The first slave asked for matters most: 80, then ten less for each that is there already, never below 30. */
  lemma PrioritiesFall(total: nat)
    ensures LaunchPriority(0) == 80
    ensures LaunchPriority(total + 1) == if LaunchPriority(total) < 40 then 30 else LaunchPriority(total) - 10
  {
  }

  lemma NobodyOmitted(m: M.Master, order: seq<Slave>, unkillable: set<TaskId>)
    ensures Omit(m, Omitted(order[..0], unkillable)) == m
  {
    assert Omitted(order[..0], unkillable) == {};
    KeepsAll(m.slaves);
  }
}
