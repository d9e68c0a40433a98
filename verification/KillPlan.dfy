/** Resource amounts and the two comparisons the scheduler makes with them. */
module Resource {

  datatype Resources = Resources(cpu: int, memory: int) {

    function Plus(other: Resources): Resources { Resources(cpu + other.cpu, memory + other.memory) }

    function Minus(other: Resources): Resources { Resources(cpu - other.cpu, memory - other.memory) }

    /** Both components must be strictly larger. */
    predicate Greater(other: Resources) { cpu > other.cpu && memory > other.memory }

    predicate NonNegative() { 0 <= cpu && 0 <= memory }

    predicate Positive() { 0 < cpu && 0 < memory }

    predicate AtMost(other: Resources) { cpu <= other.cpu && memory <= other.memory }
  }

  const ZERO := Resources(0, 0)
}

/** Which running tasks a request may displace: the selection inside `plan`, and why it is the best one. */
module KillPlan {
  import opened Resource
  import opened Sorting
  import opened Sums

  datatype Victim = Victim(id: nat, priority: int, launchTime: int, resources: Resources)

  /** Lower priority dies first; among equals, the youngest. */
  predicate DiesBefore(a: Victim, b: Victim)
  {
    a.priority < b.priority || (a.priority == b.priority && a.launchTime > b.launchTime)
  }

  ghost predicate InDyingOrder(s: seq<Victim>)
  {
    forall i, j :: 0 <= i < j < |s| ==> !DiesBefore(s[j], s[i])
  }

  /** What is available once the listed victims have given back what they hold. */
  function Freed(free: Resources, victims: seq<Victim>): Resources
    decreases |victims|
  {
    if victims == [] then free else Freed(free.Plus(victims[0].resources), victims[1..])
  }

  /** How many victims the collecting loop takes before it stops. */
  function Taken(free: Resources, need: Resources, s: seq<Victim>): (n: nat)
    ensures n <= |s|
    decreases |s|
  {
    if s == [] then 0
    else if free.Plus(s[0].resources).Greater(need) then 1
    else 1 + Taken(free.Plus(s[0].resources), need, s[1..])
  }

  /** The victims the plan kills: the collected ones if they free enough, nobody otherwise. */
  function ChosenVictims(free: Resources, need: Resources, s: seq<Victim>): seq<Victim>
  {
    var taken := s[..Taken(free, need, s)];
    if Freed(free, taken).Greater(need) then taken else []
  }

  /** What a set of victims holds, whatever the order. */
  ghost function Held(victims: set<Victim>): Resources
  {
    Resources(Sum(Cpus(victims)), Sum(Memories(victims)))
  }

  ghost function Cpus(victims: set<Victim>): map<Victim, int> { map v | v in victims :: v.resources.cpu }

  ghost function Memories(victims: set<Victim>): map<Victim, int> { map v | v in victims :: v.resources.memory }

  /** Killing this set would make room for the request. */
  ghost predicate Feasible(free: Resources, need: Resources, victims: set<Victim>)
  {
    free.Plus(Held(victims)).Greater(need)
  }

  ghost function SetOf(s: seq<Victim>): set<Victim> { set v | v in s }

  ghost predicate Distinct(s: seq<Victim>)
  {
    s == [] || (s[0] !in s[1..] && Distinct(s[1..]))
  }

  lemma {:induction false} DifferentIndicesDistinct(s: seq<Victim>)
    requires forall i, j :: 0 <= i < j < |s| ==> s[i] != s[j]
    ensures Distinct(s)
  {
    if s != [] {
      DifferentIndicesDistinct(s[1..]);
    }
  }

  ghost predicate AllNonNegative(victims: set<Victim>)
  {
    forall v :: v in victims ==> v.resources.NonNegative()
  }

  lemma HeldInsert(victims: set<Victim>, v: Victim)
    requires v !in victims
    ensures Held(victims + {v}) == Held(victims).Plus(v.resources)
  {
    SumInsert(Cpus(victims), v, v.resources.cpu);
    SumInsert(Memories(victims), v, v.resources.memory);
    assert Cpus(victims + {v}) == Cpus(victims)[v := v.resources.cpu];
    assert Memories(victims + {v}) == Memories(victims)[v := v.resources.memory];
  }

  lemma HeldMonotone(small: set<Victim>, big: set<Victim>)
    requires small <= big && AllNonNegative(big)
    ensures Held(small).AtMost(Held(big))
  {
    SumSubmap(Cpus(small), Cpus(big));
    SumSubmap(Memories(small), Memories(big));
  }

  lemma FeasibleUpwards(free: Resources, need: Resources, small: set<Victim>, big: set<Victim>)
    requires small <= big && AllNonNegative(big)
    requires Feasible(free, need, small)
    ensures Feasible(free, need, big)
  {
    HeldMonotone(small, big);
  }

  lemma HeldOfRest(s: seq<Victim>)
    requires s != [] && Distinct(s)
    ensures Held(SetOf(s)) == Held(SetOf(s[1..])).Plus(s[0].resources)
  {
    assert s == [s[0]] + s[1..];
    assert SetOf(s) == SetOf(s[1..]) + {s[0]};
    HeldInsert(SetOf(s[1..]), s[0]);
  }

  lemma HeldOfNone()
    ensures Held(SetOf([])) == ZERO
  {
    assert Cpus(SetOf([])) == map[] && Memories(SetOf([])) == map[];
  }

  /** The running total of the loop is the set total. */
  lemma {:induction false} FreedIsHeld(free: Resources, s: seq<Victim>)
    requires Distinct(s)
    ensures Freed(free, s) == free.Plus(Held(SetOf(s)))
    decreases |s|
  {
    if s == [] {
      HeldOfNone();
    } else {
      var rest := Held(SetOf(s[1..]));
      assert Held(SetOf(s)) == rest.Plus(s[0].resources) by { HeldOfRest(s); }
      assert Freed(free, s) == free.Plus(s[0].resources).Plus(rest) by {
        FreedIsHeld(free.Plus(s[0].resources), s[1..]);
      }
    }
  }

  lemma {:induction false} TakenStopsAtTheFirstFit(free: Resources, need: Resources, s: seq<Victim>, n: nat)
    requires 0 < n <= |s|
    ensures n < Taken(free, need, s) ==> !Freed(free, s[..n]).Greater(need)
    ensures Taken(free, need, s) < |s| && n == Taken(free, need, s) ==> Freed(free, s[..n]).Greater(need)
    decreases n
  {
    var next := free.Plus(s[0].resources);
    assert s[..n][1..] == s[1..][..n - 1];
    if next.Greater(need) || n == 1 {
      assert Freed(next, s[..1][1..]) == next;
    } else {
      TakenStopsAtTheFirstFit(next, need, s[1..], n - 1);
    }
  }

  lemma {:induction false} ChosenAreFeasible(free: Resources, need: Resources, candidates: set<Victim>, s: seq<Victim>)
    requires Lists(s, candidates) && ChosenVictims(free, need, s) != []
    ensures SetOf(ChosenVictims(free, need, s)) <= candidates
    ensures Feasible(free, need, SetOf(ChosenVictims(free, need, s)))
  {
    var chosen := s[..Taken(free, need, s)];
    DifferentIndicesDistinct(chosen);
    FreedIsHeld(free, chosen);
  }

  lemma {:induction false} FeasibleAreChosen(
    free: Resources, need: Resources, candidates: set<Victim>, s: seq<Victim>, other: set<Victim>)
    requires !free.Greater(need)
    requires Lists(s, candidates) && AllNonNegative(candidates)
    requires other <= candidates && Feasible(free, need, other)
    ensures ChosenVictims(free, need, s) != []
  {
    assert Freed(free, s).Greater(need) by {
      assert SetOf(s) == candidates;
      FeasibleUpwards(free, need, other, candidates);
      DifferentIndicesDistinct(s);
      FreedIsHeld(free, s);
    }
    SomeoneIsTaken(free, need, s);
  }

  lemma {:induction false} SomeoneIsTaken(free: Resources, need: Resources, s: seq<Victim>)
    requires !free.Greater(need) && Freed(free, s).Greater(need)
    ensures ChosenVictims(free, need, s) != []
  {
    var n := Taken(free, need, s);
    assert s[..|s|] == s;
    if 0 < n < |s| {
      TakenStopsAtTheFirstFit(free, need, s, n);
    }
  }

  /** Tasks are killed exactly when some set of candidates could make room at all. */
  lemma {:induction false} KillsIffFeasible(
    free: Resources, need: Resources, candidates: set<Victim>, s: seq<Victim>)
    requires !free.Greater(need)
    requires Lists(s, candidates) && AllNonNegative(candidates)
    ensures ChosenVictims(free, need, s) != [] <==>
            exists other: set<Victim> :: other <= candidates && Feasible(free, need, other)
  {
    if ChosenVictims(free, need, s) != [] {
      ChosenAreFeasible(free, need, candidates, s);
    }
    if other: set<Victim> :| other <= candidates && Feasible(free, need, other) {
      FeasibleAreChosen(free, need, candidates, s, other);
    }
  }

  /** The victims are the shortest prefix, in dying order, that frees enough. */
  lemma {:induction false} ShortestFittingPrefix(
    free: Resources, need: Resources, candidates: set<Victim>, s: seq<Victim>)
    requires !free.Greater(need)
    requires Lists(s, candidates)
    requires ChosenVictims(free, need, s) != []
    ensures var k := |ChosenVictims(free, need, s)|;
            && k <= |s| && ChosenVictims(free, need, s) == s[..k]
            && Feasible(free, need, SetOf(s[..k]))
            && forall n :: 0 <= n < k ==> !Feasible(free, need, SetOf(s[..n]))
  {
    var k := |ChosenVictims(free, need, s)|;
    DifferentIndicesDistinct(s[..k]);
    FreedIsHeld(free, s[..k]);
    forall n | 0 <= n < k ensures !Feasible(free, need, SetOf(s[..n])) {
      DifferentIndicesDistinct(s[..n]);
      FreedIsHeld(free, s[..n]);
      if n > 0 { TakenStopsAtTheFirstFit(free, need, s, n); }
    }
  }

  /** Every set that would do contains someone who dies no earlier than the last victim chosen. */
  lemma {:induction false} NoCheaperVictims(
    free: Resources, need: Resources, candidates: set<Victim>, s: seq<Victim>, other: set<Victim>)
    requires !free.Greater(need)
    requires Lists(s, candidates) && InDyingOrder(s) && AllNonNegative(candidates)
    requires other <= candidates && Feasible(free, need, other)
    ensures var chosen := ChosenVictims(free, need, s);
            chosen != [] && exists w :: w in other && !DiesBefore(w, chosen[|chosen| - 1])
  {
    FeasibleAreChosen(free, need, candidates, s, other);
    var k := LastVictimIsNeeded(free, need, candidates, s);
    if forall w :: w in other ==> DiesBefore(w, s[k]) {
      EarlierOnesPrecede(s, k, candidates, other);
      FeasibleUpwards(free, need, other, SetOf(s[..k]));
    }
  }

  lemma {:induction false} LastVictimIsNeeded(
    free: Resources, need: Resources, candidates: set<Victim>, s: seq<Victim>) returns (k: nat)
    requires !free.Greater(need)
    requires Lists(s, candidates) && ChosenVictims(free, need, s) != []
    ensures k < |s| && ChosenVictims(free, need, s) == s[..k + 1]
    ensures SetOf(s[..k]) <= candidates && !Feasible(free, need, SetOf(s[..k]))
  {
    ShortestFittingPrefix(free, need, candidates, s);
    k := |ChosenVictims(free, need, s)| - 1;
  }

  lemma EarlierOnesPrecede(s: seq<Victim>, k: nat, candidates: set<Victim>, other: set<Victim>)
    requires Lists(s, candidates) && InDyingOrder(s) && k < |s|
    requires other <= candidates && forall w :: w in other ==> DiesBefore(w, s[k])
    ensures other <= SetOf(s[..k])
  {
    forall w | w in other ensures w in SetOf(s[..k]) {
      assert w in s;
      var i :| 0 <= i < |s| && s[i] == w;
      assert i < k;
    }
  }

  /** Hence no feasible set of victims has a smaller maximum priority. */
  lemma {:induction false} SmallestMaximumPriority(
    free: Resources, need: Resources, candidates: set<Victim>, s: seq<Victim>, other: set<Victim>, bound: int)
    requires !free.Greater(need)
    requires Lists(s, candidates) && InDyingOrder(s) && AllNonNegative(candidates)
    requires other <= candidates && Feasible(free, need, other)
    requires forall w :: w in other ==> w.priority <= bound
    ensures forall v :: v in ChosenVictims(free, need, s) ==> v.priority <= bound
  {
    NoCheaperVictims(free, need, candidates, s, other);
    var k := |ChosenVictims(free, need, s)|;
    assert ChosenVictims(free, need, s) == s[..k];
    var w :| w in other && !DiesBefore(w, s[k - 1]);
    assert s[k - 1].priority <= w.priority <= bound;
    forall v | v in s[..k] ensures v.priority <= bound {
      PrioritiesAscend(s, k - 1, v);
    }
  }

  lemma PrioritiesAscend(s: seq<Victim>, last: nat, v: Victim)
    requires InDyingOrder(s) && last < |s| && v in s[..last + 1]
    ensures v.priority <= s[last].priority
  {
    var i :| 0 <= i <= last && s[i] == v;
    assert i < last ==> !DiesBefore(s[last], s[i]);
  }
}
