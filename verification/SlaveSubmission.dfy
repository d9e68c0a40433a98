/** How a slave makes sure that its submission arrived: the bot's latest submission id must have moved on. */
module SlaveConfirm {
  import opened Options

  const TRIES := 3

  /** The first reply that differs from the id seen before decides. */
  function Confirmed(prev: int, replies: seq<Option<int>>): Option<int>
  {
    if replies == [] then None
    else if replies[0].Some? && replies[0].value != prev then
      if prev < replies[0].value then replies[0] else None
    else Confirmed(prev, replies[1..])
  }

  /** A failed query, or one that still shows the submission from before. */
  predicate NoNews(prev: int, reply: Option<int>) { reply == None || reply == Some(prev) }

  /** `replies` are what the bot's monitor would answer, try by try; no more than the tries made are looked at. */
  method Confirm(prev: int, replies: seq<Option<int>>) returns (id: Option<int>, tries: nat)
    requires |replies| == TRIES
    ensures tries <= TRIES == 3
    ensures id == Confirmed(prev, replies)
    ensures id.Some? <==> 0 < tries && replies[tries - 1].Some? && prev < replies[tries - 1].value
    ensures id.Some? ==> id == replies[tries - 1]
    ensures forall k :: 0 <= k < tries - 1 ==> NoNews(prev, replies[k])
    ensures tries == TRIES || (0 < tries && !NoNews(prev, replies[tries - 1]))
  {
    var curSub, err := prev, true;
    var i := TRIES;
    tries := 0;
    while i > 0
      invariant 0 <= i <= TRIES && tries == TRIES - i
      invariant forall k :: 0 <= k < tries ==> NoNews(prev, replies[k])
      invariant Confirmed(prev, replies) == Confirmed(prev, replies[tries..])
      invariant err || curSub == prev
      decreases i
    {
      var reply := replies[TRIES - i];
      tries := tries + 1;
      assert replies[tries - 1..][1..] == replies[tries..];
      if reply.None? {
        err := true;
        i := i - 1;
        continue;
      }
      err, curSub := false, reply.value;
      if curSub != prev {
        break;
      }
      i := i - 1;
    }
    id := if err || curSub <= prev then None else Some(curSub);
  }
}

/** Slaves submitting with the bots they were given, from one refresh to the next. */
module BotIds {
  import opened Options
  import opened BotModel
  import opened BotPartition
  import opened BotRotation
  import opened SlaveConfirm

  /** A submission under way: its bot, the bot's latest id before it, the replies after it. */
  datatype Work = Work(bot: Bot, prev: Option<int>, replies: seq<Option<int>>)

  datatype Success = Success(bot: Bot, id: int)

  /** `log`: the successes since the last refresh. */
  datatype Slaves = Slaves(dist: Distribution, work: map<SlaveId, Work>, latest: map<Bot, int>, log: seq<Success>)

  datatype Event =
    | Begin(slave: SlaveId)
    | ReadBefore(slave: SlaveId)
    | ReadAfter(slave: SlaveId, ok: bool)
    | Abort(slave: SlaveId)
    | Submitted(bot: Bot, id: int)
    | Corrupted(bot: Bot)
    | Refresh(to: Distribution, bots: set<Bot>, slaves: set<SlaveId>)

  function Start(): Slaves { Slaves(map[], map[], map[], []) }

  function Latest(s: Slaves, bot: Bot): int { if bot in s.latest then s.latest[bot] else 0 }

  function Done(w: Work): bool
  {
    w.prev.Some? && (|w.replies| == TRIES || exists r :: r in w.replies && !NoNews(w.prev.value, r))
  }

  /** The loop ends with news or after the last try; a success is reported. */
  function Finish(s: Slaves, slave: SlaveId, w: Work): Slaves
    requires w.prev.Some?
  {
    if !Done(w) then s.(work := s.work[slave := w]) else
      var id := Confirmed(w.prev.value, w.replies);
      s.(work := s.work - {slave}, log := if id.Some? then s.log + [Success(w.bot, id.value)] else s.log)
  }

  /** A slave works on one submission at a time and is not interrupted by a refresh; a bot's latest id never goes
      down. */
  ghost function Step(s: Slaves, e: Event): Slaves
  {
    match e
    case Begin(slave) =>
      if slave in s.work || !AnswerTo(s.dist, slave).Handed? then s
      else s.(dist := BotModel.Step(s.dist, Get(slave)),
              work := s.work[slave := Work(AnswerTo(s.dist, slave).bot, None, [])])
    case ReadBefore(slave) =>
      if slave !in s.work || s.work[slave].prev.Some? then s
      else s.(work := s.work[slave := s.work[slave].(prev := Some(Latest(s, s.work[slave].bot)), replies := [])])
    case ReadAfter(slave, ok) =>
      if slave !in s.work || s.work[slave].prev.None? then s
      else var w := s.work[slave];
        Finish(s, slave, w.(replies := w.replies + [if ok then Some(Latest(s, w.bot)) else None]))
    case Abort(slave) => s.(work := s.work - {slave})
    case Submitted(bot, id) => if Latest(s, bot) < id then s.(latest := s.latest[bot := id]) else s
    case Corrupted(bot) => s.(dist := Deleted(s.dist, bot))
    case Refresh(to, bots, slaves) => if Refreshes(s.dist, to, bots, slaves) then s.(dist := to, log := []) else s
  }

  ghost function Run(s: Slaves, events: seq<Event>): Slaves
    decreases |events|
  {
    if events == [] then s else Run(Step(s, events[0]), events[1..])
  }

  lemma {:induction false} RunAppend(s: Slaves, a: seq<Event>, b: seq<Event>)
    ensures Run(s, a + b) == Run(Run(s, a), b)
    decreases |a|
  {
    if a == [] {
      assert a + b == b;
    } else {
      assert (a + b)[1..] == a[1..] + b;
      RunAppend(Step(s, a[0]), a[1..], b);
    }
  }

  lemma {:induction false} RunTwo(s: Slaves, a: Event, b: Event)
    ensures Run(s, [a, b]) == Step(Step(s, a), b)
  {
    var s1 := Step(s, a);
    assert [a, b][1..] == [b] && [b][1..] == [];
    assert Run(s1, [b]) == Run(Step(s1, b), []);
  }

  ghost predicate NoRefresh(events: seq<Event>) { forall e :: e in events ==> !e.Refresh? }

  /** Successes of one bot carry ever larger ids. */
  ghost predicate Increasing(log: seq<Success>)
  {
    forall i, j :: 0 <= i < j < |log| && log[i].bot == log[j].bot ==> log[i].id < log[j].id
  }

  // ---- What holds at all times ----

  /** Who has read the id from before has not had any news since. */
  ghost predicate StillTrying(s: Slaves, w: Work)
  {
    w.prev.Some? ==>
      w.prev.value <= Latest(s, w.bot) && |w.replies| < TRIES && forall r :: r in w.replies ==> NoNews(w.prev.value, r)
  }

  ghost predicate Sane(s: Slaves)
  {
    HeldAtMostOnce(s.dist) && Pointing(s.dist) && forall slave :: slave in s.work ==> StillTrying(s, s.work[slave])
  }

  lemma {:induction false} DistributionStaysSane(s: Slaves, e: Event)
    requires HeldAtMostOnce(s.dist) && Pointing(s.dist)
    ensures HeldAtMostOnce(Step(s, e).dist) && Pointing(Step(s, e).dist)
  {
    match e
    case Begin(slave) => StepKeepsBotsApart(s.dist, Get(slave));
    case Corrupted(bot) => StepKeepsBotsApart(s.dist, Delete(bot));
    case Refresh(to, bots, slaves) =>
      if Refreshes(s.dist, to, bots, slaves) {
        RefreshedOnce(s.dist, to, bots, slaves);
      }
    case _ =>
  }

  lemma {:induction false} StepKeepsSane(s: Slaves, e: Event)
    requires Sane(s)
    ensures Sane(Step(s, e))
  {
    DistributionStaysSane(s, e);
    var n := Step(s, e);
    forall slave | slave in n.work ensures StillTrying(n, n.work[slave]) {
      if slave in s.work {
        assert StillTrying(s, s.work[slave]);
      }
      if e.ReadAfter? && e.slave == slave && n.work[slave] != s.work[slave] {
        assert n.work[slave].replies[..|s.work[slave].replies|] == s.work[slave].replies;
      }
    }
  }

  lemma {:induction false} RunKeepsSane(s: Slaves, events: seq<Event>)
    requires Sane(s)
    ensures Sane(Run(s, events))
    decreases |events|
  {
    if events != [] {
      StepKeepsSane(s, events[0]);
      RunKeepsSane(Step(s, events[0]), events[1..]);
    }
  }

  // ---- Apart: ids increase ----

  /** The slave has the bot in its list or submits with it. */
  ghost predicate Uses(s: Slaves, slave: SlaveId, bot: Bot)
  {
    (slave in s.dist && bot in s.dist[slave].bots) || (slave in s.work && s.work[slave].bot == bot)
  }

  /** No bot with which a submission is under way is in another slave's list, or in use at another slave. */
  ghost predicate InFlightApart(s: Slaves)
  {
    forall a, c :: a in s.work && c != a ==> !Uses(s, c, s.work[a].bot)
  }

  /** `s0` is the state right after the refresh. */
  ghost predicate Owned(s: Slaves, s0: Slaves)
  {
    forall slave, b :: Uses(s, slave, b) ==> Uses(s0, slave, b)
  }

  ghost predicate Apart(s: Slaves)
  {
    forall a, c, b :: Uses(s, a, b) && Uses(s, c, b) ==> a == c
  }

  /** Nobody has heard of an id the site has not given out, and who is waiting has seen every id logged so far. */
  ghost predicate Known(s: Slaves)
  {
    && (forall i :: 0 <= i < |s.log| ==> s.log[i].id <= Latest(s, s.log[i].bot))
    && (forall slave :: slave in s.work && s.work[slave].prev.Some? ==> SeenAll(s, s.work[slave]))
  }

  ghost predicate SeenAll(s: Slaves, w: Work)
    requires w.prev.Some?
  {
    forall i :: 0 <= i < |s.log| && s.log[i].bot == w.bot ==> s.log[i].id <= w.prev.value
  }

  ghost predicate Inv(s: Slaves, s0: Slaves)
  {
    Sane(s) && Apart(s0) && Owned(s, s0) && Known(s) && Increasing(s.log)
  }

  /** Without news so far, the last reply alone decides. */
  lemma {:induction false} LastReplyDecides(prev: int, replies: seq<Option<int>>, last: Option<int>)
    requires forall r :: r in replies ==> NoNews(prev, r)
    ensures Confirmed(prev, replies + [last]) == if last.Some? && prev < last.value then last else None
  {
    if replies == [] {
      assert [last][1..] == [];
    } else {
      assert replies[0] in replies;
      assert (replies + [last])[1..] == replies[1..] + [last];
      LastReplyDecides(prev, replies[1..], last);
    }
  }

  lemma {:induction false} StepKeepsOwned(s: Slaves, s0: Slaves, e: Event)
    requires Owned(s, s0) && !e.Refresh?
    ensures Owned(Step(s, e), s0)
  {
    var n := Step(s, e);
    forall slave, b | Uses(n, slave, b) ensures Uses(s, slave, b) {
      if slave in n.work && n.work[slave].bot == b && !(slave in s.work && s.work[slave].bot == b) {
        assert e == Begin(slave) && b in s.dist[slave].bots;
      }
    }
  }

  /** Events without a reply log nothing. */
  lemma {:induction false} QuietStepKeepsKnown(s: Slaves, e: Event)
    requires Known(s) && !e.ReadAfter? && !e.Refresh?
    ensures Known(Step(s, e)) && Step(s, e).log == s.log
  {
    var n := Step(s, e);
    assert n.log == s.log;
    forall slave | slave in n.work && n.work[slave].prev.Some? ensures SeenAll(n, n.work[slave]) {
      if slave in s.work && s.work[slave].prev.Some? {
        assert SeenAll(s, s.work[slave]);
      }
    }
  }

  /** What one reply leads to: another try, an end without success, or the bot's latest id. */
  lemma {:induction false} ReplyOutcome(s: Slaves, slave: SlaveId, ok: bool)
    requires slave in s.work && s.work[slave].prev.Some? && StillTrying(s, s.work[slave])
    ensures var w, n := s.work[slave], Step(s, ReadAfter(slave, ok));
            && n.latest == s.latest && n.dist == s.dist
            && (forall other :: other in n.work ==>
                  other in s.work && n.work[other].bot == s.work[other].bot && n.work[other].prev == s.work[other].prev)
            && if ok && w.prev.value < Latest(s, w.bot)
               then n.work == s.work - {slave} && n.log == s.log + [Success(w.bot, Latest(s, w.bot))]
               else n.log == s.log
  {
    var w := s.work[slave];
    var last := if ok then Some(Latest(s, w.bot)) else None;
    LastReplyDecides(w.prev.value, w.replies, last);
    assert last in w.replies + [last];
  }

  lemma {:induction false} SuccessKeepsKnown(s: Slaves, s0: Slaves, slave: SlaveId)
    requires Inv(s, s0) && slave in s.work && s.work[slave].prev.Some?
    requires s.work[slave].prev.value < Latest(s, s.work[slave].bot)
    ensures Known(Step(s, ReadAfter(slave, true))) && Increasing(Step(s, ReadAfter(slave, true)).log)
  {
    var w, n := s.work[slave], Step(s, ReadAfter(slave, true));
    ReplyOutcome(s, slave, true);
    assert SeenAll(s, w);
    forall other | other in n.work && n.work[other].prev.Some? ensures SeenAll(n, n.work[other]) {
      assert SeenAll(s, s.work[other]);
      assert Uses(s, slave, w.bot) && Uses(s, other, s.work[other].bot);
      assert n.work[other].bot != w.bot;
    }
  }

  lemma {:induction false} ReadKeepsKnown(s: Slaves, s0: Slaves, slave: SlaveId, ok: bool)
    requires Inv(s, s0) && slave in s.work && s.work[slave].prev.Some?
    ensures Known(Step(s, ReadAfter(slave, ok))) && Increasing(Step(s, ReadAfter(slave, ok)).log)
  {
    var w, n := s.work[slave], Step(s, ReadAfter(slave, ok));
    ReplyOutcome(s, slave, ok);
    if ok && w.prev.value < Latest(s, w.bot) {
      SuccessKeepsKnown(s, s0, slave);
    } else {
      forall other | other in n.work && n.work[other].prev.Some? ensures SeenAll(n, n.work[other]) {
        assert SeenAll(s, s.work[other]);
      }
    }
  }

  lemma {:induction false} StepKeepsInv(s: Slaves, s0: Slaves, e: Event)
    requires Inv(s, s0) && !e.Refresh?
    ensures Inv(Step(s, e), s0)
  {
    StepKeepsSane(s, e);
    StepKeepsOwned(s, s0, e);
    if e.ReadAfter? {
      if e.slave in s.work && s.work[e.slave].prev.Some? {
        ReadKeepsKnown(s, s0, e.slave, e.ok);
      }
    } else {
      QuietStepKeepsKnown(s, e);
    }
  }

  lemma {:induction false} RunKeepsInv(s: Slaves, s0: Slaves, events: seq<Event>)
    requires Inv(s, s0) && NoRefresh(events)
    ensures Inv(Run(s, events), s0)
    decreases |events|
  {
    if events != [] {
      assert events[0] in events;
      StepKeepsInv(s, s0, events[0]);
      RunKeepsInv(Step(s, events[0]), s0, events[1..]);
    }
  }

  /** When nobody shares a bot that is in use, every success until the next refresh carries a new id. */
  lemma {:induction false} ApartIdsIncrease(s: Slaves, events: seq<Event>)
    requires Sane(s) && s.log == [] && InFlightApart(s) && NoRefresh(events)
    ensures Increasing(Run(s, events).log)
  {
    forall a, c, b | Uses(s, a, b) && Uses(s, c, b) ensures a == c {
      if a != c {
        ListedTwice(s, a, c, b);
      }
    }
    RunKeepsInv(s, s, events);
  }

  lemma ListedTwice(s: Slaves, a: SlaveId, c: SlaveId, b: Bot)
    requires HeldAtMostOnce(s.dist) && InFlightApart(s) && Uses(s, a, b) && Uses(s, c, b)
    ensures a == c
  {
    if a in s.dist && b in s.dist[a].bots && c in s.dist && b in s.dist[c].bots {
      var i :| 0 <= i < |s.dist[a].bots| && s.dist[a].bots[i] == b;
      var j :| 0 <= j < |s.dist[c].bots| && s.dist[c].bots[j] == b;
    }
  }

  // ---- Not apart: an id can repeat ----

  /** Slaves that both have read the id before and see the same new one. */
  lemma {:induction false} SameNewId(s: Slaves, a: SlaveId, c: SlaveId)
    requires Sane(s) && s.log == [] && a != c && a in s.work && c in s.work && s.work[a].bot == s.work[c].bot
    requires s.work[a].prev.Some? && s.work[c].prev.Some?
    requires s.work[a].prev.value < Latest(s, s.work[a].bot) && s.work[c].prev.value < Latest(s, s.work[a].bot)
    ensures !Increasing(Run(s, [ReadAfter(a, true), ReadAfter(c, true)]).log)
  {
    var b := s.work[a].bot;
    var s1 := Step(s, ReadAfter(a, true));
    ReplyOutcome(s, a, true);
    StepKeepsSane(s, ReadAfter(a, true));
    assert c in s1.work && s1.work[c] == s.work[c];
    ReplyOutcome(s1, c, true);
    RunTwo(s, ReadAfter(a, true), ReadAfter(c, true));
    var log := Step(s1, ReadAfter(c, true)).log;
    assert log == [Success(b, Latest(s, b)), Success(b, Latest(s, b))];
    assert log[0].bot == log[1].bot && log[0].id == log[1].id;
  }

  lemma {:induction false} ReadyToConfirm(s: Slaves, a: SlaveId, c: SlaveId)
    requires Sane(s) && a in s.work && c in s.work
    ensures var n := Run(s, [ReadBefore(a), ReadBefore(c)]);
            && Sane(n) && n.log == s.log && n.latest == s.latest && a in n.work && c in n.work
            && n.work[a].bot == s.work[a].bot && n.work[c].bot == s.work[c].bot
            && n.work[a].prev.Some? && n.work[c].prev.Some?
  {
    RunTwo(s, ReadBefore(a), ReadBefore(c));
    StepKeepsSane(s, ReadBefore(a));
    StepKeepsSane(Step(s, ReadBefore(a)), ReadBefore(c));
  }

  lemma {:induction false} SharedInFlightRepeats(s: Slaves, a: SlaveId, c: SlaveId) returns (events: seq<Event>)
    requires Sane(s) && s.log == [] && a != c && a in s.work && c in s.work && s.work[a].bot == s.work[c].bot
    ensures NoRefresh(events) && !Increasing(Run(s, events).log)
  {
    var b := s.work[a].bot;
    var ready := [ReadBefore(a), ReadBefore(c)];
    var submitted := [Submitted(b, Latest(s, b) + 1)];
    var confirm := [ReadAfter(a, true), ReadAfter(c, true)];
    ReadyToConfirm(s, a, c);
    var s1 := Run(s, ready);
    var s2 := Step(s1, submitted[0]);
    assert submitted[1..] == [] && Run(s1, submitted) == s2;
    assert StillTrying(s1, s1.work[a]) && StillTrying(s1, s1.work[c]);
    StepKeepsSane(s1, submitted[0]);
    SameNewId(s2, a, c);
    RunAppend(s, ready, submitted);
    RunAppend(s, ready + submitted, confirm);
    events := ready + submitted + confirm;
  }

  lemma NextPosition(l: nat, k: nat)
    requires l < k
    ensures (l + 1) % k == if l + 1 == k then 0 else l + 1
  {
    if l + 1 == k {
      QuotientIs(l + 1, k, 1, 0);
    } else {
      QuotientIs(l + 1, k, 0, l + 1);
    }
  }

  /** A slave that gives up whatever it does and begins anew gets its next bot. */
  lemma {:induction false} BeginsAnew(s: Slaves, c: SlaveId)
    requires Sane(s) && c in s.dist && s.dist[c].bots != []
    ensures var n := Run(s, [Abort(c), Begin(c)]);
            var next := Advanced(s.dist[c]);
            && Sane(n) && n.dist == s.dist[c := next] && n.latest == s.latest && n.log == s.log
            && n.work == s.work[c := Work(next.bots[next.lastUsed], None, [])]
  {
    RunTwo(s, Abort(c), Begin(c));
    StepKeepsSane(s, Abort(c));
    StepKeepsSane(Step(s, Abort(c)), Begin(c));
    assert (s.work - {c})[c := Work(AnswerTo(s.dist, c).bot, None, [])] == s.work[c := Work(AnswerTo(s.dist, c).bot, None, [])];
  }

  /** How many more bots come before position i when the last one was at l. */
  function Distance(l: int, i: nat, k: nat): int { if l <= i then i - l else k + i - l }

  /** Sooner or later the slave is handed each of its bots. */
  lemma {:induction false} IsHanded(s: Slaves, c: SlaveId, i: nat) returns (events: seq<Event>)
    requires Sane(s) && c in s.dist && i < |s.dist[c].bots| && 0 <= s.dist[c].lastUsed < |s.dist[c].bots|
    requires c in s.work && s.work[c] == Work(s.dist[c].bots[s.dist[c].lastUsed], None, [])
    ensures NoRefresh(events)
    ensures var n := Run(s, events);
            Sane(n) && n.log == s.log && n.work == s.work[c := Work(s.dist[c].bots[i], None, [])]
    decreases Distance(s.dist[c].lastUsed, i, |s.dist[c].bots|)
  {
    var d := s.dist[c];
    if d.lastUsed == i {
      events := [];
      assert s.work[c := s.work[c]] == s.work;
    } else {
      var anew := [Abort(c), Begin(c)];
      BeginsAnew(s, c);
      NextPosition(d.lastUsed, |d.bots|);
      var n := Run(s, anew);
      var more := IsHanded(n, c, i);
      RunAppend(s, anew, more);
      assert n.work[c := Work(d.bots[i], None, [])] == s.work[c := Work(d.bots[i], None, [])];
      events := anew + more;
    }
  }

  lemma {:induction false} SharedListRepeats(s: Slaves, a: SlaveId, c: SlaveId) returns (events: seq<Event>)
    requires Sane(s) && s.log == [] && a != c && a in s.work && c in s.dist && s.work[a].bot in s.dist[c].bots
    ensures NoRefresh(events) && !Increasing(Run(s, events).log)
  {
    var i :| 0 <= i < |s.dist[c].bots| && s.dist[c].bots[i] == s.work[a].bot;
    var anew := [Abort(c), Begin(c)];
    BeginsAnew(s, c);
    var s1 := Run(s, anew);
    assert s1.dist[c].bots == s.dist[c].bots;
    var handing := IsHanded(s1, c, i);
    var s2 := Run(s1, handing);
    assert s2.work[c].bot == s.work[a].bot && s2.work[a] == s.work[a];
    var ending := SharedInFlightRepeats(s2, a, c);
    RunAppend(s, anew, handing);
    RunAppend(s, anew + handing, ending);
    events := anew + handing + ending;
  }

  /** From any sane state right after a refresh: all successes until the next one carry strictly increasing ids for
      each bot, whatever happens, exactly when no bot with which a submission is still under way has been dealt to
      another slave or is in use at one. */
  lemma {:induction false} IdsIncreaseIff(s: Slaves)
    requires Sane(s) && s.log == []
    ensures InFlightApart(s) <==> (forall events :: NoRefresh(events) ==> Increasing(Run(s, events).log))
  {
    if InFlightApart(s) {
      forall events | NoRefresh(events) ensures Increasing(Run(s, events).log) {
        ApartIdsIncrease(s, events);
      }
    } else {
      var a, c :| a in s.work && c != a && Uses(s, c, s.work[a].bot);
      var events;
      if c in s.work && s.work[c].bot == s.work[a].bot {
        events := SharedInFlightRepeats(s, a, c);
      } else {
        events := SharedListRepeats(s, a, c);
      }
      assert NoRefresh(events) && !Increasing(Run(s, events).log);
    }
  }

  /** The same for the state after any history that ends with a refresh. */
  lemma {:induction false} SuccessesHaveNewIdsIff(history: seq<Event>, e: Event)
    requires e.Refresh? && Refreshes(Run(Start(), history).dist, e.to, e.bots, e.slaves)
    ensures var s := Step(Run(Start(), history), e);
            InFlightApart(s) <==> (forall events :: NoRefresh(events) ==> Increasing(Run(s, events).log))
  {
    RunKeepsSane(Start(), history);
    StepKeepsSane(Run(Start(), history), e);
    IdsIncreaseIff(Step(Run(Start(), history), e));
  }

  /** Taking out the last used bots keeps a refresh safe as long as every slave at work is on the list and its record
      still points at the bot it uses. */
  lemma {:induction false} ListedSlavesStayApart(s: Slaves, e: Event)
    requires Sane(s) && e.Refresh? && Refreshes(s.dist, e.to, e.bots, e.slaves)
    requires forall a :: a in s.work ==> a in e.slaves && a in s.dist && LastUsed(s.dist[a]) == Some(s.work[a].bot)
    ensures InFlightApart(Step(s, e))
  {
    var n := Step(s, e);
    RefreshedOnce(s.dist, e.to, e.bots, e.slaves);
    forall a, c | a in n.work && c != a ensures !Uses(n, c, n.work[a].bot) {
      var bot := n.work[a].bot;
      assert bot in e.bots ==> Took(s.dist, a, e.bots, bot);
      assert bot !in e.bots - Taken(s.dist, e.slaves, e.bots);
      assert !Held(e.to, bot);
      if c in n.work {
        assert s.dist[a].bots[s.dist[a].lastUsed] == bot;
        assert s.dist[c].bots[s.dist[c].lastUsed] == n.work[c].bot;
      }
    }
  }

  /** One slave, one bot: what the refresh deals when nobody on the list has used the bot last. */
  lemma {:induction false} OneForOne(d: Distribution, slave: SlaveId, bot: Bot)
    requires slave !in d
    ensures Refreshes(d, map[slave := SlaveDist([bot], -1)], {bot}, {slave})
  {
    var n := map[slave := SlaveDist([bot], -1)];
    var order, rest := [slave], [bot];
    assert Taken(d, {slave}, {bot}) == {};
    assert Empties(1) == [[]] && CeilDiv(1, 1) == 1;
    assert [] + [bot][..1] == [bot] && Share([], 1, [bot]) == 1;
    assert Empties(1)[1..] == [];
    assert Filled(Empties(1), 1, rest) == [[bot]];
    assert DealsRest(d, n, order, rest, {bot}, {slave});
  }

  /** The refresh that deals bot 7 to the one slave on the list. */
  function SevenFor(slave: SlaveId): Event { Event.Refresh(map[slave := SlaveDist([7], -1)], {7}, {slave}) }

  /** It does happen: slave 1 is at work with bot 7 when it is dropped from the list, and slave 2 is dealt the bot. */
  lemma {:induction false} DroppedSlaveSharesItsBot()
    ensures var before := Run(Start(), [SevenFor(1), Begin(1)]);
            var s := Step(before, SevenFor(2));
            && Refreshes(before.dist, SevenFor(2).to, {7}, {2})
            && 1 in s.work && s.work[1].bot == 7 && 2 in s.dist && 7 in s.dist[2].bots
            && exists events :: NoRefresh(events) && !Increasing(Run(s, events).log)
  {
    OneForOne(map[], 1, 7);
    RunTwo(Start(), SevenFor(1), Begin(1));
    var s1 := Step(Start(), SevenFor(1));
    var s2 := Step(s1, Begin(1));
    assert AnswerTo(s1.dist, 1) == Handed(7);
    assert s2.work == map[1 := Work(7, None, [])] && s2.dist == map[1 := SlaveDist([7], 0)];
    OneForOne(s2.dist, 2, 7);
    var s := Step(s2, SevenFor(2));
    assert Uses(s, 2, s.work[1].bot);
    SuccessesHaveNewIdsIff([SevenFor(1), Begin(1)], SevenFor(2));
  }
}
