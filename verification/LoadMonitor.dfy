/** The load monitor: a window of one minute, and two moving averages. Floats are modelled as reals. */
module LoadMonitor {

  ghost predicate Ascending(s: seq<int>) { forall i, j :: 0 <= i < j < |s| ==> s[i] <= s[j] }

  /** The times after the cutoff. */
  function Newer(times: seq<int>, cutoff: int): seq<int>
  {
    if times == [] then [] else (if cutoff < times[0] then [times[0]] else []) + Newer(times[1..], cutoff)
  }

  lemma {:induction false} AllNewer(times: seq<int>, cutoff: int)
    requires forall i :: 0 <= i < |times| ==> cutoff < times[i]
    ensures Newer(times, cutoff) == times
  {
    if times != [] {
      AllNewer(times[1..], cutoff);
    }
  }

  lemma {:induction false} NewerKeepsExactly(times: seq<int>, cutoff: int, t: int)
    ensures multiset(Newer(times, cutoff))[t] == if cutoff < t then multiset(times)[t] else 0
  {
    if times != [] {
      assert times == [times[0]] + times[1..];
      NewerKeepsExactly(times[1..], cutoff, t);
    }
  }

  function TickAverage(avg: real, load: nat): real { 0.45 * avg + 0.55 * (load as real) }

  /** In milliseconds; samples out of order count as taken five apart. */
  function SinceLast(previous: int, sampled: int): int { if previous < sampled then sampled - previous else 5 }

  /** The law of exp(-delta / tau) that its users rely on: it starts at one, stays positive, turns sums into products
      and does not grow. */
  ghost predicate Exponential(alphaOf: int -> real)
  {
    && alphaOf(0) == 1.0
    && (forall delta: int :: 0 <= delta ==> 0.0 < alphaOf(delta) <= 1.0)
    && (forall a: nat, b: nat :: SumsMultiply(alphaOf, a, b))
  }

  ghost predicate SumsMultiply(alphaOf: int -> real, a: nat, b: nat) { alphaOf(a + b) == alphaOf(a) * alphaOf(b) }

  function Blend(alpha: real, past: real, sample: real): real { alpha * past + (1.0 - alpha) * sample }

  class LoadManager {
    /** The min-first queue of request times: its next element is the first. */
    var subReqT: seq<int>
    var avgLoad: real
    var avgSubT: real
    var previousSampleTime: int

    constructor (longAgo: int)
      ensures subReqT == [] && avgLoad == 0.0 && avgSubT == 0.0 && previousSampleTime == longAgo
    {
      subReqT, avgLoad, avgSubT, previousSampleTime := [], 0.0, 0.0, longAgo;
    }

    /** The queue's contract: it hands out the smallest first. */
    method Add(time: int)
      requires Ascending(subReqT)
      modifies this`subReqT
      ensures Ascending(subReqT) && multiset(subReqT) == multiset(old(subReqT)) + multiset{time}
    {
      var i := 0;
      while i < |subReqT| && subReqT[i] <= time
        invariant i <= |subReqT|
        invariant forall k :: 0 <= k < i ==> subReqT[k] <= time
      {
        i := i + 1;
      }
      assert subReqT == subReqT[..i] + subReqT[i..];
      subReqT := subReqT[..i] + [time] + subReqT[i..];
    }

    /** One turn of the load loop: forget what is a minute old, then average over what is left. */
    method MonitorLoad(oneMinAgo: int)
      requires Ascending(subReqT)
      modifies this`subReqT, this`avgLoad
      ensures subReqT == Newer(old(subReqT), oneMinAgo) && Ascending(subReqT)
      ensures avgLoad == TickAverage(old(avgLoad), |subReqT|)
      ensures avgLoad == 0.45 * old(avgLoad) + 0.55 * (|subReqT| as real)
    {
      EvictOld(oneMinAgo);
      var curLoad := |subReqT|;
      avgLoad := 0.45 * avgLoad + 0.55 * (curLoad as real);
    }

    method EvictOld(oneMinAgo: int)
      requires Ascending(subReqT)
      modifies this`subReqT
      ensures subReqT == Newer(old(subReqT), oneMinAgo) && Ascending(subReqT)
    {
      while 0 < |subReqT|
        invariant Ascending(subReqT)
        invariant Newer(subReqT, oneMinAgo) == Newer(old(subReqT), oneMinAgo)
        decreases |subReqT|
      {
        var top := subReqT[0];
        if top > oneMinAgo {
          AllNewer(subReqT, oneMinAgo);
          break;
        }
        subReqT := subReqT[1..];
      }
    }

    /** `alphaOf` stands for the exponential of the time since the last sample. */
    method MonitorSubTime(sampleTime: int, duration: real, alphaOf: int -> real)
      requires Exponential(alphaOf)
      modifies this`avgSubT, this`previousSampleTime
      ensures avgSubT == Blend(alphaOf(SinceLast(old(previousSampleTime), sampleTime)), old(avgSubT), duration)
      ensures old(previousSampleTime) < sampleTime ==>
                && previousSampleTime == sampleTime
                && avgSubT == Blend(alphaOf(sampleTime - old(previousSampleTime)), old(avgSubT), duration)
      ensures sampleTime <= old(previousSampleTime) ==>
                previousSampleTime == old(previousSampleTime) && avgSubT == Blend(alphaOf(5), old(avgSubT), duration)
      ensures previousSampleTime >= old(previousSampleTime) && previousSampleTime >= sampleTime
      ensures previousSampleTime in {old(previousSampleTime), sampleTime}
    {
      var delta;
      if sampleTime > previousSampleTime {
        delta := sampleTime - previousSampleTime;
        previousSampleTime := sampleTime;
      } else {
        delta := 5;
      }
      assert delta == SinceLast(old(previousSampleTime), sampleTime);
      var alpha := alphaOf(delta);
      avgSubT := alpha * avgSubT + (1.0 - alpha) * duration;
      assert avgSubT == Blend(alpha, old(avgSubT), duration);
    }
  }

  // ---- The load average after many ticks ----

  /** 0.45 to the n-th times x. */
  function Decay(x: real, n: nat): real { if n == 0 then x else 0.45 * Decay(x, n - 1) }

  /** The loads weighted by age: 0.55 * 0.45 to the (n - k)-th for the k-th of n. */
  function WeightedSum(loads: seq<nat>): real
  {
    if loads == [] then 0.0 else Decay(0.55 * (loads[0] as real), |loads| - 1) + WeightedSum(loads[1..])
  }

  /** What the average becomes when the loads are met tick by tick. */
  function AfterTicks(avg: real, loads: seq<nat>): real
    decreases |loads|
  {
    if loads == [] then avg else AfterTicks(TickAverage(avg, loads[0]), loads[1..])
  }

  lemma {:induction false} DecayAdds(x: real, y: real, n: nat)
    ensures Decay(x + y, n) == Decay(x, n) + Decay(y, n)
  {
    if n != 0 {
      DecayAdds(x, y, n - 1);
    }
  }

  lemma {:induction false} DecayShifts(x: real, n: nat)
    ensures Decay(0.45 * x, n) == Decay(x, n + 1)
  {
    if n != 0 {
      DecayShifts(x, n - 1);
    }
  }

  lemma {:induction false} DecayScales(x: real, c: real, n: nat)
    ensures Decay(c * x, n) == c * Decay(x, n)
  {
    if n != 0 {
      DecayScales(x, c, n - 1);
      assert 0.45 * (c * Decay(x, n - 1)) == c * (0.45 * Decay(x, n - 1));
    }
  }

  lemma {:induction false} DecayShrinks(x: real, n: nat)
    requires 0.0 <= x
    ensures 0.0 <= Decay(x, n) <= x
    ensures 0 < n && 0.0 < x ==> Decay(x, n) < x
  {
    if n != 0 {
      DecayShrinks(x, n - 1);
    }
  }

  /** The average is what is left of the first one plus the weighted loads. */
  lemma {:induction false} AverageIsWeightedSum(avg: real, loads: seq<nat>)
    ensures AfterTicks(avg, loads) == Decay(avg, |loads|) + WeightedSum(loads)
    decreases |loads|
  {
    if loads != [] {
      var n := |loads| - 1;
      AverageIsWeightedSum(TickAverage(avg, loads[0]), loads[1..]);
      DecayAdds(0.45 * avg, 0.55 * (loads[0] as real), n);
      DecayShifts(avg, n);
    }
  }

  lemma {:induction false} FromZero(loads: seq<nat>)
    ensures AfterTicks(0.0, loads) == WeightedSum(loads)
  {
    AverageIsWeightedSum(0.0, loads);
    DecayShrinks(0.0, |loads|);
  }

  /** It stays between zero and the largest load times 1 - 0.45^n. */
  lemma {:induction false} AverageIsBounded(loads: seq<nat>, most: nat)
    requires forall k :: 0 <= k < |loads| ==> loads[k] <= most
    ensures 0.0 <= AfterTicks(0.0, loads) <= (most as real) - Decay(most as real, |loads|)
  {
    FromZero(loads);
    WeightsAreBounded(loads, most);
  }

  lemma {:induction false} WeightsAreBounded(loads: seq<nat>, most: nat)
    requires forall k :: 0 <= k < |loads| ==> loads[k] <= most
    ensures 0.0 <= WeightedSum(loads) <= (most as real) - Decay(most as real, |loads|)
  {
    if loads != [] {
      var n := |loads| - 1;
      var x, m := loads[0] as real, most as real;
      assert x <= m;
      WeightsAreBounded(loads[1..], most);
      DecayShrinks(0.55 * x, n);
      DecayShrinks(0.55 * (m - x), n);
      DecayAdds(0.55 * x, 0.55 * (m - x), n);
      assert 0.55 * x + 0.55 * (m - x) == 0.55 * m;
      DecayScales(m, 0.55, n);
      assert Decay(0.55 * x, n) <= 0.55 * Decay(m, n);
      assert Decay(m, n + 1) == 0.45 * Decay(m, n);
      assert WeightedSum(loads) == Decay(0.55 * x, n) + WeightedSum(loads[1..]);
    }
  }

  /** Towards a constant load the distance shrinks to 0.45 of itself with every tick. */
  lemma {:induction false} ConstantLoadContracts(avg: real, loads: seq<nat>, load: nat)
    requires forall k :: 0 <= k < |loads| ==> loads[k] == load
    ensures AfterTicks(avg, loads) - (load as real) == Decay(avg - (load as real), |loads|)
    decreases |loads|
  {
    if loads != [] {
      var next := TickAverage(avg, load);
      ConstantLoadContracts(next, loads[1..], load);
      assert next - (load as real) == 0.45 * (avg - (load as real));
      DecayShifts(avg - (load as real), |loads| - 1);
    }
  }

  /** The new average of submission times lies between the old one and the sample. */
  lemma BlendStaysBetween(alpha: real, past: real, sample: real)
    requires 0.0 <= alpha <= 1.0
    ensures past <= sample ==> past <= Blend(alpha, past, sample) <= sample
    ensures sample <= past ==> sample <= Blend(alpha, past, sample) <= past
    ensures 0.0 < alpha < 1.0 && past != sample ==> Blend(alpha, past, sample) != past && Blend(alpha, past, sample) != sample
  {
    var d := sample - past;
    assert Blend(alpha, past, sample) == past + (1.0 - alpha) * d;
    assert Blend(alpha, past, sample) == sample - alpha * d;
    if 0.0 <= d {
      ProductSign(alpha, d);
      ProductSign(1.0 - alpha, d);
    } else {
      ProductSign(alpha, -d);
      ProductSign(1.0 - alpha, -d);
      assert alpha * -d == -(alpha * d) && (1.0 - alpha) * -d == -((1.0 - alpha) * d);
    }
  }

  /** Two samples of the same duration weigh as much as one after the whole time. */
  lemma SameSamplesCompose(alphaOf: int -> real, a: nat, b: nat, past: real, sample: real)
    requires Exponential(alphaOf)
    ensures Blend(alphaOf(b), Blend(alphaOf(a), past, sample), sample) == Blend(alphaOf(a + b), past, sample)
  {
    assert SumsMultiply(alphaOf, a, b);
    BlendTwice(alphaOf(a), alphaOf(b), past, sample);
  }

  lemma BlendTwice(x: real, y: real, past: real, sample: real)
    ensures Blend(y, Blend(x, past, sample), sample) == Blend(x * y, past, sample)
  {
    var d := past - sample;
    assert Blend(x, past, sample) == sample + x * d;
    assert Blend(y, sample + x * d, sample) == sample + y * (x * d);
    assert y * (x * d) == x * y * d;
    assert Blend(x * y, past, sample) == sample + x * y * d;
  }

  /** The longer ago the last sample, the nearer to the new one the average moves. */
  lemma LongerGapsTrustTheSample(alphaOf: int -> real, a: nat, b: nat, past: real, sample: real)
    requires Exponential(alphaOf)
    ensures past <= sample ==> Blend(alphaOf(a), past, sample) <= Blend(alphaOf(a + b), past, sample) <= sample
    ensures sample <= past ==> sample <= Blend(alphaOf(a + b), past, sample) <= Blend(alphaOf(a), past, sample)
  {
    SameSamplesCompose(alphaOf, a, b, past, sample);
    BlendStaysBetween(alphaOf(a), past, sample);
    BlendStaysBetween(alphaOf(b), Blend(alphaOf(a), past, sample), sample);
  }

  lemma ProductSign(x: real, y: real)
    requires 0.0 <= x && 0.0 <= y
    ensures 0.0 <= x * y
    ensures 0.0 < x && 0.0 < y ==> 0.0 < x * y
  {
  }
}
