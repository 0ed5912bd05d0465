/**
 The connection statistics both versions print at the end of a run or on an
 interrupt: the counters and the list of latencies of successful attempts, and
 the summary derived from them. Latencies are milliseconds as `real`; the
 floating-point rounding of the source is not modelled.

 Both versions compute the minimum and maximum with a loop that starts from a
 sentinel (C++: 1e9 and -1.0, Java: Double.MAX_VALUE and Double.MIN_VALUE);
 the sentinels are parameters here so that what the loop reports is exact even
 when the latencies fall outside the range the sentinels were chosen for.
 */
module Statistics {
  import opened Options

  datatype Latencies = Latencies(min: real, max: real, avg: real)

  /** What printStats emits: nothing, or the counters, the failure percentage and,
      when at least one attempt connected, the latency figures. */
  datatype Summary =
    | Silent
    | Report(attempted: int, connected: int, failed: int, failurePct: real, latencies: Option<Latencies>)

  /** `m` is the least element of `s`. */
  ghost predicate IsMinimum(m: real, s: seq<real>) {
    (exists k :: 0 <= k < |s| && s[k] == m) && forall k :: 0 <= k < |s| ==> m <= s[k]
  }

  /** `m` is the greatest element of `s`. */
  ghost predicate IsMaximum(m: real, s: seq<real>) {
    (exists k :: 0 <= k < |s| && s[k] == m) && forall k :: 0 <= k < |s| ==> s[k] <= m
  }

  /** The running minimum after scanning `s` from `start`: each element below it replaces it. */
  function Lowest(start: real, s: seq<real>): (m: real)
    ensures m <= start && forall k :: 0 <= k < |s| ==> m <= s[k]
    ensures m == start || exists k :: 0 <= k < |s| && s[k] == m
  {
    if |s| == 0 then start
    else
      var m := Lowest(start, s[..|s| - 1]);
      if s[|s| - 1] < m then s[|s| - 1] else m
  }

  /** The running maximum after scanning `s` from `start`: each element above it replaces it. */
  function Highest(start: real, s: seq<real>): (m: real)
    ensures start <= m && forall k :: 0 <= k < |s| ==> s[k] <= m
    ensures m == start || exists k :: 0 <= k < |s| && s[k] == m
  {
    if |s| == 0 then start
    else
      var m := Highest(start, s[..|s| - 1]);
      if s[|s| - 1] > m then s[|s| - 1] else m
  }

  /** The sum of the elements of `s`, accumulated left to right. */
  function Sum(s: seq<real>): real {
    if |s| == 0 then 0.0 else Sum(s[..|s| - 1]) + s[|s| - 1]
  }

  /** Failure rate in percent, as `failed / total * 100`. */
  function FailurePercent(connected: int, failed: int): real
    requires connected + failed != 0
  {
    failed as real / (connected + failed) as real * 100.0
  }

  /** The summary printStats derives from the counters and the latencies. */
  function Summarize(connected: int, failed: int, times: seq<real>, minStart: real, maxStart: real): Summary {
    if connected + failed == 0 then Silent
    else
      Report(connected + failed, connected, failed, FailurePercent(connected, failed),
             if connected > 0
             then Some(Latencies(Lowest(minStart, times), Highest(maxStart, times), Sum(times) / connected as real))
             else None)
  }

  /** Appending latencies to a list that already extends `recorded` by `earlier` extends it by both. */
  lemma AppendLatencies(recorded: seq<real>, earlier: seq<real>, later: seq<real>)
    ensures recorded + earlier + later == recorded + (earlier + later)
  {
  }

  /** One more turn of printStats's loop: the element at `k` updates the running
      minimum, maximum and sum of the elements before it. */
  lemma ScanStep(minStart: real, maxStart: real, s: seq<real>, k: nat)
    requires k < |s|
    ensures Lowest(minStart, s[..k + 1]) == if s[k] < Lowest(minStart, s[..k]) then s[k] else Lowest(minStart, s[..k])
    ensures Highest(maxStart, s[..k + 1]) == if s[k] > Highest(maxStart, s[..k]) then s[k] else Highest(maxStart, s[..k])
    ensures Sum(s[..k + 1]) == Sum(s[..k]) + s[k]
  {
    assert s[..k + 1][..k] == s[..k];
  }

  /** Every element lies between `lo` and `hi`, so the sum lies between |s|*lo and |s|*hi. */
  lemma {:induction false} SumBetween(s: seq<real>, lo: real, hi: real)
    requires forall k :: 0 <= k < |s| ==> lo <= s[k] <= hi
    ensures |s| as real * lo <= Sum(s) <= |s| as real * hi
  {
    if |s| > 0 {
      var init := s[..|s| - 1];
      SumBetween(init, lo, hi);
      assert |s| as real * lo == |init| as real * lo + lo;
      assert |s| as real * hi == |init| as real * hi + hi;
    }
  }

  /** The mean of a non-empty list lies between its minimum and its maximum. */
  lemma MeanBetween(s: seq<real>, minStart: real, maxStart: real)
    requires |s| > 0
    ensures Lowest(minStart, s) <= Sum(s) / |s| as real <= Highest(maxStart, s)
  {
    MeanOfBounded(s, Lowest(minStart, s), Highest(maxStart, s));
  }

  /** Every element lies between `lo` and `hi`, so their mean does too. */
  lemma MeanOfBounded(s: seq<real>, lo: real, hi: real)
    requires |s| > 0
    requires forall k :: 0 <= k < |s| ==> lo <= s[k] <= hi
    ensures lo <= Sum(s) / |s| as real <= hi
  {
    SumBetween(s, lo, hi);
    DivideBetween(Sum(s), |s| as real, lo, hi);
  }

  lemma DivideBetween(a: real, n: real, lo: real, hi: real)
    requires n > 0.0 && n * lo <= a <= n * hi
    ensures lo <= a / n <= hi
  {
    assert a / n * n == a;
  }

  /** The summary is silent exactly when nothing was attempted; otherwise it
      counts every attempt, and its latency figures appear exactly when some
      attempt connected. */
  lemma SummaryShape(connected: int, failed: int, times: seq<real>, minStart: real, maxStart: real)
    ensures var s := Summarize(connected, failed, times, minStart, maxStart);
      && (s.Silent? <==> connected + failed == 0)
      && (s.Report? ==> s.attempted == s.connected + s.failed && s.connected == connected && s.failed == failed)
      && (s.Report? ==> (s.latencies.Some? <==> connected > 0))
  {
  }

  /** The failure percentage lies in [0, 100]; it is 100 exactly when nothing
      connected and 0 exactly when nothing failed. */
  lemma FailurePercentRange(connected: nat, failed: nat)
    requires connected + failed > 0
    ensures 0.0 <= FailurePercent(connected, failed) <= 100.0
    ensures FailurePercent(connected, failed) == 100.0 <==> connected == 0
    ensures FailurePercent(connected, failed) == 0.0 <==> failed == 0
  {
    var t := (connected + failed) as real;
    var q := failed as real / t;
    assert q * t == failed as real;
    DivideBetween(failed as real, t, 0.0, 1.0);
    if q == 1.0 { assert failed as real == t; }
    if connected == 0 {
      assert failed as real == t;
      assert t / t == 1.0;
    }
  }

  /** With one latency per connected attempt, the reported minimum, average and maximum are ordered. */
  lemma LatenciesOrdered(connected: int, failed: int, times: seq<real>, minStart: real, maxStart: real)
    requires |times| == connected
    ensures var s := Summarize(connected, failed, times, minStart, maxStart);
      s.Report? && s.latencies.Some? ==> s.latencies.value.min <= s.latencies.value.avg <= s.latencies.value.max
  {
    if connected > 0 {
      MeanBetween(times, minStart, maxStart);
    }
  }

  /** When no latency lies beyond the sentinels, the reported minimum and maximum
      are the true least and greatest latencies. */
  lemma LatenciesExact(connected: int, failed: int, times: seq<real>, minStart: real, maxStart: real)
    requires |times| == connected > 0 && failed >= 0
    requires forall k :: 0 <= k < |times| ==> maxStart <= times[k] <= minStart
    ensures var s := Summarize(connected, failed, times, minStart, maxStart);
      s.Report? && s.latencies.Some? && IsMinimum(s.latencies.value.min, times) && IsMaximum(s.latencies.value.max, times)
  {
    var lo, hi := Lowest(minStart, times), Highest(maxStart, times);
    if lo == minStart { assert times[0] == lo; }
    if hi == maxStart { assert times[0] == hi; }
  }
}
