/**
 * History sampler shared by the three solvers: a (time, centre temperature) pair
 * is stored after a step when the history is empty or at least 0.5 s have passed
 * since the last stored time.
 */
module Sampling {

  /** Minimum spacing of stored sample times, in seconds. */
  const Interval: real := 0.5

  /** The two parallel lists a solver returns. */
  datatype History = History(times: seq<real>, temps: seq<real>)

  /** Consecutive stored times are at least Interval apart. */
  predicate Spaced(times: seq<real>)
  {
    forall i | 1 <= i < |times| :: times[i - 1] + Interval <= times[i]
  }

  /** Offer the sample (t, v) after a step. */
  function Record(h: History, t: real, v: real): (r: History)
    ensures r == h || (r.times == h.times + [t] && r.temps == h.temps + [v])
    ensures h.times == [] ==> r.times == [t] && r.temps == h.temps + [v]
    ensures h.times != [] ==> (r == h <==> t - h.times[|h.times| - 1] < Interval)
    ensures |h.times| == |h.temps| ==> |r.times| == |r.temps|
    ensures Spaced(h.times) ==> Spaced(r.times)
  {
    if |h.times| == 0 || t - h.times[|h.times| - 1] >= Interval then
      History(h.times + [t], h.temps + [v])
    else
      h
  }

  /**
   * The bookkeeping of one time-loop iteration: when the history agrees with a clock
   * reading t (empty only at t = 0, first sample at dt, last sample within Interval
   * of t), the history r obtained by offering the sample v taken at t + dt agrees
   * with the clock at t + dt, and a sample it stores at exactly t + dt is v.
   */
  lemma RecordAfterStep(h: History, t: real, dt: real, v: real, r: History)
    requires dt > 0.0 && |h.times| == |h.temps| && Spaced(h.times)
    requires h.times == [] ==> t == 0.0
    requires h.times != [] ==> h.times[0] == dt && t - Interval < h.times[|h.times| - 1] <= t
    requires r == Record(h, t + dt, v)
    ensures |r.times| == |r.temps| && Spaced(r.times) && r.times != [] && r.times[0] == dt
    ensures t + dt - Interval < r.times[|r.times| - 1] <= t + dt
    ensures r.times[|r.times| - 1] == t + dt ==> r.temps[|r.temps| - 1] == v
  {
  }

  /** Stored times grow by at least Interval per sample, so they are strictly increasing. */
  lemma {:induction false} SpacedIsIncreasing(times: seq<real>, i: nat, j: nat)
    requires Spaced(times)
    requires i <= j < |times|
    ensures times[i] + (j - i) as real * Interval <= times[j]
    decreases j
  {
    if i < j {
      SpacedIsIncreasing(times, i, j - 1);
    }
  }
}
