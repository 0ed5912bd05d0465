/**
 The probe loop of the C++ version: the `Stats` global (`connected`, `failed`,
 `times`), the loop counter `i`, and `printStats`. Each iteration's system-call
 results and the time the clock measured are inputs.
 */
module CppProbe {
  import opened Options
  import opened Statistics
  import opened ProbeCount
  import opened CppArgs
  import opened CppConnect

  /** The starting values of printStats's `min` and `max`: `1e9` and `-1.0`. */
  const MinStart: real := 1_000_000_000.0
  const MaxStart: real := -1.0

  /** The inputs of one iteration. */
  datatype Probe = Probe(sys: Syscalls, elapsedMs: real)

  /** What one iteration did: the family requested from getaddrinfo, the attempt, the time reported. */
  datatype Ping = Ping(family: Family, attempt: Attempt, elapsedMs: real)

  /** The number of successful attempts among `pings`. */
  function Successes(pings: seq<Ping>): nat {
    if |pings| == 0 then 0
    else Successes(pings[..|pings| - 1]) + if pings[|pings| - 1].attempt.success then 1 else 0
  }

  /** The number of failed attempts among `pings`. */
  function Failures(pings: seq<Ping>): nat {
    if |pings| == 0 then 0
    else Failures(pings[..|pings| - 1]) + if pings[|pings| - 1].attempt.success then 0 else 1
  }

  /** Every attempt is counted once, as a success or as a failure. */
  lemma {:induction false} CountsAddUp(pings: seq<Ping>)
    ensures Successes(pings) + Failures(pings) == |pings|
  {
    if |pings| > 0 {
      CountsAddUp(pings[..|pings| - 1]);
    }
  }

  /** The times of the successful attempts among `pings`, in order. */
  function SuccessTimes(pings: seq<Ping>): seq<real> {
    if |pings| == 0 then []
    else
      var last := pings[|pings| - 1];
      SuccessTimes(pings[..|pings| - 1]) + if last.attempt.success then [last.elapsedMs] else []
  }

  /** `ping` is what the iteration on `p` records. */
  predicate Records(c: Config, p: Probe, ping: Ping) {
    ping.attempt == Connect(c.host, c.timeout, p.sys) && ping.elapsedMs == p.elapsedMs
  }

  /** Each of `pings` is what the iteration on the probe at its position records. */
  predicate RecordsAll(c: Config, probes: seq<Probe>, pings: seq<Ping>) {
    && |pings| <= |probes|
    && (|pings| > 0 ==>
          RecordsAll(c, probes, pings[..|pings| - 1]) && Records(c, probes[|pings| - 1], pings[|pings| - 1]))
  }

  lemma {:induction false} RecordsAllPointwise(c: Config, probes: seq<Probe>, pings: seq<Ping>)
    requires RecordsAll(c, probes, pings)
    ensures forall k :: 0 <= k < |pings| ==> Records(c, probes[k], pings[k])
  {
    if |pings| > 0 {
      var init := pings[..|pings| - 1];
      RecordsAllPointwise(c, probes, init);
      assert forall k :: 0 <= k < |init| ==> pings[k] == init[k];
    }
  }

  /** Counters `connected`, `failed` and `times` are those at `before` plus the attempts in `pings`. */
  ghost predicate Tallied(before: (int, int, seq<real>), pings: seq<Ping>, connected: int, failed: int, times: seq<real>) {
    && connected == before.0 + Successes(pings)
    && failed == before.1 + Failures(pings)
    && times == before.2 + SuccessTimes(pings)
  }

  /** One iteration of the loop on the probe after `pings` keeps the recorded pings and the
      counters in step. */
  lemma IterationRecords(c: Config, probes: seq<Probe>, before: (int, int, seq<real>), pings: seq<Ping>,
                         ping: Ping, connected0: int, failed0: int, times0: seq<real>,
                         connected: int, failed: int, times: seq<real>)
    requires |pings| < |probes| && RecordsAll(c, probes, pings)
    requires Tallied(before, pings, connected0, failed0, times0)
    requires ping.attempt == Connect(c.host, c.timeout, probes[|pings|].sys)
    requires ping.elapsedMs == probes[|pings|].elapsedMs
    requires ping.attempt.success ==>
      connected == connected0 + 1 && failed == failed0 && times == times0 + [probes[|pings|].elapsedMs]
    requires !ping.attempt.success ==>
      connected == connected0 && failed == failed0 + 1 && times == times0
    ensures RecordsAll(c, probes, pings + [ping]) && Tallied(before, pings + [ping], connected, failed, times)
  {
    AppendPing(pings, ping);
    AppendLatencies(before.2, SuccessTimes(pings), if ping.attempt.success then [ping.elapsedMs] else []);
  }

  /** Recording one more ping adds its outcome to the counts and its time, if it connected, to the latencies. */
  lemma AppendPing(pings: seq<Ping>, ping: Ping)
    ensures (pings + [ping])[..|pings|] == pings
    ensures Successes(pings + [ping]) == Successes(pings) + if ping.attempt.success then 1 else 0
    ensures Failures(pings + [ping]) == Failures(pings) + if ping.attempt.success then 0 else 1
    ensures SuccessTimes(pings + [ping]) == SuccessTimes(pings) + if ping.attempt.success then [ping.elapsedMs] else []
  {
    assert (pings + [ping])[..|pings|] == pings;
  }

  class ProbeLoop {
    const config: Config
    var i: int
    var connected: int
    var failed: int
    var times: seq<real>
    /** How many times the loop has called sleep_for. */
    var sleeps: nat

    ghost predicate Valid()
      reads this
    {
      && 0 <= connected && 0 <= failed
      && connected + failed == i
      && |times| == connected
      && (config.count != -1 ==> i <= Bound(config.count))
      && sleeps == SleepsAfter(config.count, i)
    }

    constructor (config: Config)
      ensures Valid() && this.config == config
      ensures i == 0 && connected == 0 && failed == 0 && times == [] && sleeps == 0
    {
      this.config := config;
      i, connected, failed, times, sleeps := 0, 0, 0, [], 0;
    }

    predicate Running()
      reads this
    {
      Continues(config.count, i)
    }

    /** One iteration of `main`'s loop. */
    method Step(p: Probe) returns (ping: Ping)
      requires Valid() && Running()
      modifies this
      ensures Valid()
      ensures ping.attempt == Connect(config.host, config.timeout, p.sys) && ping.elapsedMs == p.elapsedMs
      ensures Requested(ping.family, config.forceV4, config.forceV6)
      ensures i == old(i) + 1
      ensures ping.attempt.success ==>
        connected == old(connected) + 1 && failed == old(failed) && times == old(times) + [p.elapsedMs]
      ensures !ping.attempt.success ==>
        connected == old(connected) && failed == old(failed) + 1 && times == old(times)
      ensures sleeps == old(sleeps) + if Running() then 1 else 0
    {
      var family := ChooseFamily(config.forceV4, config.forceV6);
      var attempt := Connect(config.host, config.timeout, p.sys);
      if attempt.success {
        connected := connected + 1;
        times := times + [p.elapsedMs];
      } else {
        failed := failed + 1;
      }
      i := i + 1;
      if config.count == -1 || i < config.count {
        sleeps := sleeps + 1;
      }
      ping := Ping(family, attempt, p.elapsedMs);
    }

    /** The loop run on `probes`; it ends when the count is reached or, if the
        probes run out first, where an interrupt stops the process. */
    method Run(probes: seq<Probe>) returns (pings: seq<Ping>)
      requires Valid()
      modifies this
      ensures Valid()
      ensures |pings| == Attempts(config.count, old(i), |probes|) && i == old(i) + |pings|
      ensures |pings| < |probes| ==> !Running()
      ensures forall k :: 0 <= k < |pings| ==> Records(config, probes[k], pings[k])
      ensures connected == old(connected) + Successes(pings)
      ensures failed == old(failed) + Failures(pings)
      ensures times == old(times) + SuccessTimes(pings)
    {
      ghost var before := (connected, failed, times);
      pings := [];
      var k := 0;
      while k < |probes| && Running()
        invariant Valid()
        invariant 0 <= k <= |probes| && |pings| == k && i == old(i) + k
        invariant k < |probes| && !Running() ==> config.count != -1 && i == Bound(config.count)
        invariant RecordsAll(config, probes, pings)
        invariant Tallied(before, pings, connected, failed, times)
      {
        ghost var (c, f, t) := (connected, failed, times);
        var ping := Step(probes[k]);
        IterationRecords(config, probes, before, pings, ping, c, f, t, connected, failed, times);
        pings := pings + [ping];
        k := k + 1;
      }
      RecordsAllPointwise(config, probes, pings);
    }

    /** `printStats`: the summary of the counters and latencies recorded so far. */
    method PrintStats() returns (s: Summary)
      ensures s == Summarize(connected, failed, times, MinStart, MaxStart)
    {
      var total := connected + failed;
      if total == 0 {
        return Silent;
      }
      var failurePct := failed as real / total as real * 100.0;
      if connected > 0 {
        var min, max, sum := MinStart, MaxStart, 0.0;
        for k := 0 to |times|
          invariant min == Lowest(MinStart, times[..k])
          invariant max == Highest(MaxStart, times[..k])
          invariant sum == Sum(times[..k])
        {
          var t := times[k];
          ScanStep(MinStart, MaxStart, times, k);
          if t < min { min := t; }
          if t > max { max := t; }
          sum := sum + t;
        }
        assert times[..|times|] == times;
        var avg := sum / connected as real;
        return Report(total, connected, failed, failurePct, Some(Latencies(min, max, avg)));
      }
      return Report(total, connected, failed, failurePct, None);
    }
  }

  /** `main` after parseArgs: the loop, then the summary that the SIGINT (Ctrl-C)
      handler prints before it exits. A run that reaches its count returns from
      `main` without printing any summary. */
  method Session(config: Config, probes: seq<Probe>) returns (pings: seq<Ping>, summary: Option<Summary>, sleeps: nat)
    ensures |pings| == Attempts(config.count, 0, |probes|)
    ensures forall k :: 0 <= k < |pings| ==> Records(config, probes[k], pings[k])
    ensures summary.Some? <==> Continues(config.count, |pings|)
    ensures summary.Some? ==>
      summary.value == Summarize(Successes(pings), Failures(pings), SuccessTimes(pings), MinStart, MaxStart)
    ensures sleeps == SleepsAfter(config.count, |pings|)
    ensures config.count >= 1 && |pings| == config.count ==> sleeps == config.count - 1
  {
    var loop := new ProbeLoop(config);
    pings := loop.Run(probes);
    ghost var connected, failed, times := loop.connected, loop.failed, loop.times;
    assert connected == Successes(pings) && failed == Failures(pings) && times == SuccessTimes(pings);
    assert loop.i == |pings|;
    sleeps := loop.sleeps;
    assert config.count >= 1 && |pings| == config.count ==> sleeps == config.count - 1 by {
      if config.count >= 1 && |pings| == config.count {
        SleepsBetweenAttempts(config.count);
      }
    }
    if loop.Running() {
      var s := loop.PrintStats();
      SummaryOfPings(pings, connected, failed, times);
      summary := Some(s);
    } else {
      summary := None;
    }
  }

  lemma SummaryOfPings(pings: seq<Ping>, connected: int, failed: int, times: seq<real>)
    requires connected == Successes(pings) && failed == Failures(pings) && times == SuccessTimes(pings)
    ensures Summarize(connected, failed, times, MinStart, MaxStart)
      == Summarize(Successes(pings), Failures(pings), SuccessTimes(pings), MinStart, MaxStart)
  {
  }

  /** With every latency between -1 ms and 1e9 ms, the reported minimum and
      maximum are the true least and greatest latencies, and the average lies
      between them. */
  lemma ReportedRangeExact(connected: nat, failed: nat, times: seq<real>)
    requires |times| == connected > 0
    requires forall k :: 0 <= k < |times| ==> MaxStart <= times[k] <= MinStart
    ensures var s := Summarize(connected, failed, times, MinStart, MaxStart);
      && s.Report? && s.latencies.Some?
      && IsMinimum(s.latencies.value.min, times) && IsMaximum(s.latencies.value.max, times)
      && s.latencies.value.min <= s.latencies.value.avg <= s.latencies.value.max
  {
    LatenciesExact(connected, failed, times, MinStart, MaxStart);
    LatenciesOrdered(connected, failed, times, MinStart, MaxStart);
  }

  /** After a run in which every attempt failed, the summary reports 100% failures and no latencies. */
  lemma AllFailedSummary(pings: seq<Ping>)
    requires |pings| > 0 && forall k :: 0 <= k < |pings| ==> !pings[k].attempt.success
    ensures Summarize(Successes(pings), Failures(pings), SuccessTimes(pings), MinStart, MaxStart)
      == Report(|pings|, 0, |pings|, 100.0, None)
  {
    NoSuccesses(pings);
    FailurePercentRange(0, |pings|);
  }

  lemma {:induction false} NoSuccesses(pings: seq<Ping>)
    requires forall k :: 0 <= k < |pings| ==> !pings[k].attempt.success
    ensures Successes(pings) == 0 && Failures(pings) == |pings| && SuccessTimes(pings) == []
  {
    if |pings| > 0 {
      NoSuccesses(pings[..|pings| - 1]);
    }
  }
}
