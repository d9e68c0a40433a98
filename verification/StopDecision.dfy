/** When a bot's monitor may stop: what its life signals decide, in whatever order they arrive. */
module StopDecision {
  import opened Options
  import opened Sorting

  type Time = int
  type CfSubId = nat
  type Status = nat

  const GRACE: Time := 300

  datatype Mail =
    | Stop(sent: Time)
    | KeepAlive(sent: Time)
    | SubAlert(id: CfSubId, status: Status)
    | UpdateStopDecision(sent: Time)

  /** `ltsSignal`: when the latest signal was sent. `ltsStop`: since when the monitor may count down. */
  datatype Decision = Decision(endLife: bool, ltsSignal: Time, ltsStop: Time)

  datatype Signal = Signal(sent: Time, stop: bool)

  function Handle(d: Decision, ml: Mail, now: Time): Decision
  {
    match ml
    case Stop(t) => if d.ltsSignal < t then Decision(true, t, t) else d
    case KeepAlive(t) => if d.ltsSignal < t then d.(endLife := false, ltsSignal := t) else d
    case SubAlert(_, _) => d.(ltsStop := now)
    case UpdateStopDecision(t) => if d.endLife then d.(ltsStop := t) else d
  }

  predicate MayStop(d: Decision, now: Time) { d.endLife && d.ltsStop + GRACE <= now }

  class CfBotMonitor {
    var endLife: bool
    var ltsSignal: Time
    var ltsStopDecision: Time
    var subStatMap: map<CfSubId, Status>

    ghost function State(): Decision
      reads this
    {
      Decision(endLife, ltsSignal, ltsStopDecision)
    }

    constructor (now: Time)
      ensures !endLife && ltsSignal == now && subStatMap == map[]
    {
      endLife, ltsSignal, ltsStopDecision, subStatMap := false, now, 0, map[];
    }

    method ProcessMail(ml: Mail, now: Time)
      modifies this
      ensures State() == Handle(old(State()), ml, now)
      ensures subStatMap == if ml.SubAlert? then old(subStatMap)[ml.id := ml.status] else old(subStatMap)
      ensures ml.Stop? && old(ltsSignal) < ml.sent ==> endLife && ltsSignal == ml.sent && ltsStopDecision == ml.sent
      ensures ml.KeepAlive? && old(ltsSignal) < ml.sent ==>
                !endLife && ltsSignal == ml.sent && ltsStopDecision == old(ltsStopDecision)
      ensures (ml.Stop? || ml.KeepAlive?) && ml.sent <= old(ltsSignal) ==> State() == old(State())
      ensures ml.SubAlert? ==> ltsStopDecision == now
      ensures ml.UpdateStopDecision? ==> ltsStopDecision == if endLife then ml.sent else old(ltsStopDecision)
      ensures ml.SubAlert? || ml.UpdateStopDecision? ==> endLife == old(endLife) && ltsSignal == old(ltsSignal)
    {
      match ml
      case Stop(stopTime) =>
        if stopTime > ltsSignal {
          ltsSignal := stopTime;
          endLife := true;
          ltsStopDecision := stopTime;
        }
      case KeepAlive(kaTime) =>
        if kaTime > ltsSignal {
          endLife := false;
          ltsSignal := kaTime;
        }
      case SubAlert(id, status) =>
        subStatMap := subStatMap[id := status];
        ltsStopDecision := now;
      case UpdateStopDecision(tm) =>
        if endLife {
          ltsStopDecision := tm;
        }
    }

    /** What the ticker decides: look at the submissions once more, or stop. */
    method ProcessTick(now: Time) returns (stopped: bool)
      ensures stopped <==> MayStop(State(), now)
      ensures stopped <==> endLife && ltsStopDecision + 5 * 60 <= now
    {
      if !endLife {
        return false;
      }
      var expiry := ltsStopDecision + GRACE;
      if now < expiry {
        return false;
      }
      stopped := true;
    }

    method ProcessMails(mails: seq<(Mail, Time)>)
      modifies this
      ensures State() == Run(old(State()), mails)
    {
      for n := 0 to |mails|
        invariant State() == Run(old(State()), mails[..n])
      {
        assert mails[..n + 1] == mails[..n] + [mails[n]];
        RunAppend(old(State()), mails[..n], mails[n]);
        ProcessMail(mails[n].0, mails[n].1);
      }
      assert mails[..|mails|] == mails;
    }
  }

  /** Mails with the time at which each is handled. */
  function Run(d: Decision, mails: seq<(Mail, Time)>): Decision
    decreases |mails|
  {
    if mails == [] then d else Run(Handle(d, mails[0].0, mails[0].1), mails[1..])
  }

  lemma {:induction false} RunAppend(d: Decision, mails: seq<(Mail, Time)>, ml: (Mail, Time))
    ensures Run(d, mails + [ml]) == Handle(Run(d, mails), ml.0, ml.1)
    decreases |mails|
  {
    if mails == [] {
      assert [ml][1..] == [];
    } else {
      assert (mails + [ml])[1..] == mails[1..] + [ml];
      RunAppend(Handle(d, mails[0].0, mails[0].1), mails[1..], ml);
    }
  }

  // ---- Signals only ----

  function SignalOf(ml: Mail): seq<Signal>
  {
    match ml
    case Stop(t) => [Signal(t, true)]
    case KeepAlive(t) => [Signal(t, false)]
    case _ => []
  }

  function Signals(mails: seq<(Mail, Time)>): seq<Signal>
  {
    if mails == [] then [] else SignalOf(mails[0].0) + Signals(mails[1..])
  }

  /** Whether to end, and when the signal that says so was sent. */
  datatype Verdict = Verdict(endLife: bool, ltsSignal: Time)

  function Decide(v: Verdict, signals: seq<Signal>): Verdict
    decreases |signals|
  {
    if signals == [] then v
    else Decide(if v.ltsSignal < signals[0].sent then Verdict(signals[0].stop, signals[0].sent) else v, signals[1..])
  }

  function VerdictOf(d: Decision): Verdict { Verdict(d.endLife, d.ltsSignal) }

  /** Whatever else arrives in between, only the signals decide. */
  lemma {:induction false} OnlySignalsDecide(d: Decision, mails: seq<(Mail, Time)>)
    ensures VerdictOf(Run(d, mails)) == Decide(VerdictOf(d), Signals(mails))
    decreases |mails|
  {
    if mails != [] {
      OnlySignalsDecide(Handle(d, mails[0].0, mails[0].1), mails[1..]);
      var first := SignalOf(mails[0].0);
      if first == [] {
        assert [] + Signals(mails[1..]) == Signals(mails[1..]);
      } else {
        assert (first + Signals(mails[1..]))[1..] == Signals(mails[1..]);
      }
    }
  }

  /** Sent last of all the signals, and after what was known before. */
  ghost predicate Latest(v: Verdict, signals: seq<Signal>, s: Signal)
  {
    s in signals && v.ltsSignal < s.sent && forall other :: other in signals ==> other.sent <= s.sent
  }

  /** Signals sent at the same latest moment are of one kind. */
  ghost predicate LatestAgree(v: Verdict, signals: seq<Signal>)
  {
    forall s, t :: Latest(v, signals, s) && Latest(v, signals, t) ==> s.stop == t.stop
  }

  /** The decision is the latest signal's. */
  lemma {:induction false} LatestDecides(v: Verdict, signals: seq<Signal>)
    ensures var n := Decide(v, signals);
            && v.ltsSignal <= n.ltsSignal
            && (forall s :: s in signals ==> s.sent <= n.ltsSignal)
            && (n == v || Latest(v, signals, Signal(n.ltsSignal, n.endLife)))
    decreases |signals|
  {
    if signals != [] {
      var v1 := if v.ltsSignal < signals[0].sent then Verdict(signals[0].stop, signals[0].sent) else v;
      LatestDecides(v1, signals[1..]);
      assert signals == [signals[0]] + signals[1..];
    }
  }

  /** With distinct times, all after the start: the decision holds exactly the latest signal. */
  lemma {:induction false} StopsIffLatestIsStop(d: Decision, mails: seq<(Mail, Time)>, latest: Signal)
    requires forall i, j :: 0 <= i < j < |Signals(mails)| ==> Signals(mails)[i].sent != Signals(mails)[j].sent
    requires Latest(VerdictOf(d), Signals(mails), latest)
    ensures Run(d, mails).ltsSignal == latest.sent
    ensures Run(d, mails).endLife <==> latest.stop
  {
    var signals := Signals(mails);
    OnlySignalsDecide(d, mails);
    LatestDecides(VerdictOf(d), signals);
    var n := Run(d, mails);
    var i :| 0 <= i < |signals| && signals[i] == latest;
    var j :| 0 <= j < |signals| && signals[j] == Signal(n.ltsSignal, n.endLife);
    assert signals[i].sent == signals[j].sent;
  }

  /** The signals in any order. */
  ghost predicate SameSignals(p: seq<Signal>, q: seq<Signal>) { multiset(p) == multiset(q) }

  lemma SameMembers(p: seq<Signal>, q: seq<Signal>, s: Signal)
    requires SameSignals(p, q)
    ensures s in p <==> s in q
  {
    assert s in multiset(p) <==> s in multiset(q);
  }

  lemma {:induction false} AgreeingSignalsInAnyOrder(v: Verdict, p: seq<Signal>, q: seq<Signal>)
    requires SameSignals(p, q) && LatestAgree(v, p)
    ensures Decide(v, p) == Decide(v, q)
  {
    LatestDecides(v, p);
    LatestDecides(v, q);
    forall s ensures s in p <==> s in q {
      SameMembers(p, q, s);
    }
    var a, b := Decide(v, p), Decide(v, q);
    assert Latest(v, q, Signal(b.ltsSignal, b.endLife)) ==> Latest(v, p, Signal(b.ltsSignal, b.endLife));
  }

  /** A signal nobody is later than, when it comes first, is what remains. */
  lemma {:induction false} NothingLater(v: Verdict, signals: seq<Signal>)
    requires forall s :: s in signals ==> s.sent <= v.ltsSignal
    ensures Decide(v, signals) == v
    decreases |signals|
  {
    if signals != [] {
      assert signals == [signals[0]] + signals[1..];
      assert signals[0] in signals;
      NothingLater(v, signals[1..]);
    }
  }

  lemma {:induction false} FirstLatestWins(v: Verdict, signals: seq<Signal>, s: Signal) returns (order: seq<Signal>)
    requires Latest(v, signals, s)
    ensures SameSignals(order, signals) && Decide(v, order) == Verdict(s.stop, s.sent)
  {
    var i :| 0 <= i < |signals| && signals[i] == s;
    var rest := signals[..i] + signals[i + 1..];
    order := [s] + rest;
    assert signals == signals[..i] + [s] + signals[i + 1..];
    assert order[1..] == rest;
    forall t | t in rest ensures t.sent <= s.sent {
      assert t in signals;
    }
    NothingLater(Verdict(s.stop, s.sent), rest);
  }

  /** The order of delivery does not matter exactly when signals sent at the same latest moment are of one kind. */
  lemma {:induction false} OrderIsIrrelevantIff(v: Verdict, signals: seq<Signal>)
    ensures LatestAgree(v, signals)
       <==> (forall p, q :: SameSignals(p, signals) && SameSignals(q, signals) ==> Decide(v, p) == Decide(v, q))
  {
    if LatestAgree(v, signals) {
      forall p, q | SameSignals(p, signals) && SameSignals(q, signals) ensures Decide(v, p) == Decide(v, q) {
        AgreeingSignalsInAnyOrder(v, signals, p);
        AgreeingSignalsInAnyOrder(v, signals, q);
      }
    } else {
      var s, t :| Latest(v, signals, s) && Latest(v, signals, t) && s.stop != t.stop;
      var p := FirstLatestWins(v, signals, s);
      var q := FirstLatestWins(v, signals, t);
      assert Decide(v, p) != Decide(v, q);
    }
  }

  /** So a monitor that stops was last told to, whatever the order of its mails. */
  lemma {:induction false} StoppedByLatestSignal(d: Decision, mails: seq<(Mail, Time)>, now: Time)
    requires !d.endLife && MayStop(Run(d, mails), now)
    ensures exists s :: Latest(VerdictOf(d), Signals(mails), s) && s.stop
  {
    OnlySignalsDecide(d, mails);
    LatestDecides(VerdictOf(d), Signals(mails));
  }

  // ---- The time of grace ----

  /** Whatever the mail moves the start of the countdown to is not before `t`. */
  predicate NotOlder(d: Decision, ml: (Mail, Time), t: Time)
  {
    match ml.0
    case Stop(sent) => d.ltsSignal < sent ==> t <= sent
    case KeepAlive(_) => true
    case SubAlert(_, _) => t <= ml.1
    case UpdateStopDecision(sent) => d.endLife ==> t <= sent
  }

  predicate NothingOlder(d: Decision, mails: seq<(Mail, Time)>, t: Time)
    decreases |mails|
  {
    mails == [] || (NotOlder(d, mails[0], t) && NothingOlder(Handle(d, mails[0].0, mails[0].1), mails[1..], t))
  }

  /** At no moment of the run may the monitor stop before five minutes after `t`. */
  ghost predicate HoldsOff(d: Decision, mails: seq<(Mail, Time)>, t: Time)
    decreases |mails|
  {
    && t <= d.ltsStop
    && (mails == [] || HoldsOff(Handle(d, mails[0].0, mails[0].1), mails[1..], t))
  }

  /** The countdown never starts before `t` exactly when no accepted mail carries an older time. */
  lemma {:induction false} HoldsOffIff(d: Decision, mails: seq<(Mail, Time)>, t: Time)
    requires t <= d.ltsStop
    ensures HoldsOff(d, mails, t) <==> NothingOlder(d, mails, t)
    decreases |mails|
  {
    if mails != [] {
      var n := Handle(d, mails[0].0, mails[0].1);
      if t <= n.ltsStop {
        HoldsOffIff(n, mails[1..], t);
      }
    }
  }

  lemma {:induction false} HeldOffToTheEnd(d: Decision, mails: seq<(Mail, Time)>, t: Time, now: Time)
    requires HoldsOff(d, mails, t) && now < t + 5 * 60
    ensures !MayStop(Run(d, mails), now)
    decreases |mails|
  {
    if mails != [] {
      HeldOffToTheEnd(Handle(d, mails[0].0, mails[0].1), mails[1..], t, now);
    }
  }

  /** So a monitor alerted to a submission at time `t` goes on for five minutes, unless a stop signal arrives that was
      sent before. */
  lemma {:induction false} AlertGivesFiveMinutes(d: Decision, id: CfSubId, status: Status, t: Time,
                                                mails: seq<(Mail, Time)>, now: Time)
    requires NothingOlder(Handle(d, SubAlert(id, status), t), mails, t) && now < t + 5 * 60
    ensures !MayStop(Run(Handle(d, SubAlert(id, status), t), mails), now)
  {
    var alerted := Handle(d, SubAlert(id, status), t);
    HoldsOffIff(alerted, mails, t);
    HeldOffToTheEnd(alerted, mails, t, now);
  }

  /** Such a late stop does cut the time short: sent at any time before the alert, and newer than the last signal. */
  lemma {:induction false} LateStopShortensGrace(d: Decision, id: CfSubId, status: Status, t: Time, sent: Time)
    requires d.ltsSignal < sent < t
    ensures var n := Run(Handle(d, SubAlert(id, status), t), [(Stop(sent), t)]);
            MayStop(n, sent + 5 * 60) && sent + 5 * 60 < t + 5 * 60
  {
    var alerted := Handle(d, SubAlert(id, status), t);
    assert [(Stop(sent), t)][1..] == [];
    assert Run(alerted, [(Stop(sent), t)]) == Run(Handle(alerted, Stop(sent), t), []);
  }
}
