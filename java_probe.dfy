/**
 The probe loop of the Java version: the static fields `connected`, `failed`
 and `times`, the loop counter `i`, and `printStats`, which the shutdown hook
 runs however the program ends. Each iteration's resolver answer, the outcome
 of `Socket.connect`, the measured time and whether the sleep was interrupted
 are inputs.

 Three arguments make the JDK throw an unchecked IllegalArgumentException that
 nothing catches, which ends the program: a port outside 0..65535 (in the
 InetSocketAddress constructor), a negative timeout (in Socket.connect) and a
 negative interval (in Thread.sleep).
 */
module JavaProbe {
  import opened Options
  import opened Statistics
  import opened ProbeCount
  import opened JavaArgs
  import opened JavaResolve

  function Pow2(n: nat): (r: real)
    ensures r >= 1.0
  {
    if n == 0 then 1.0 else 2.0 * Pow2(n - 1)
  }

  /** `Double.MAX_VALUE` and `Double.MIN_VALUE` (the smallest positive double),
      the starting values of printStats's `min` and `max`. */
  const DoubleMaxValue: real := (2.0 - 1.0 / Pow2(52)) * Pow2(1023)
  const DoubleMinValue: real := 1.0 / Pow2(1074)

  /** What the network does in one iteration. */
  datatype Net = Net(
    lookup: Option<seq<InetAddress>>,  // InetAddress.getAllByName(host), None when it throws
    handshake: bool,                   // socket.connect completes within the timeout
    peerIp: string)                    // socket.getInetAddress().getHostAddress()

  /** The inputs of one iteration. */
  datatype Probe = Probe(net: Net, elapsedMs: real, sleepInterrupted: bool)

  /** What one recorded iteration reports. */
  datatype Ping = Ping(success: bool, remoteIp: string, elapsedMs: real)

  /** How the loop goes on after an iteration. */
  datatype Next =
    | Continue     // it slept and will try again
    | Completed    // the count is reached
    | Interrupted  // the sleep was interrupted: break
    | Aborted      // an unchecked exception escaped main

  /** Some address of `addrs` is of a family the flags ask for. */
  predicate AnyWanted(addrs: seq<InetAddress>, forceV4: bool, forceV6: bool) {
    |addrs| > 0 && (Wanted(addrs[0], forceV4, forceV6) || AnyWanted(addrs[1..], forceV4, forceV6))
  }

  lemma {:induction false} AnyWantedExists(addrs: seq<InetAddress>, forceV4: bool, forceV6: bool)
    ensures AnyWanted(addrs, forceV4, forceV6) <==> exists k :: 0 <= k < |addrs| && Wanted(addrs[k], forceV4, forceV6)
  {
    if |addrs| > 0 {
      AnyWantedExists(addrs[1..], forceV4, forceV6);
      assert forall k :: 1 <= k < |addrs| ==> addrs[k] == addrs[1..][k - 1];
    }
  }

  /** With the flags given, the resolver returned an address of a requested family. */
  predicate HasWanted(c: Config, lookup: Option<seq<InetAddress>>) {
    lookup.Some? && AnyWanted(lookup.value, c.forceV4, c.forceV6)
  }

  /** resolveAddress gets as far as building an InetSocketAddress. */
  predicate BuildsAddress(c: Config, lookup: Option<seq<InetAddress>>) {
    (!c.forceV4 && !c.forceV6) || HasWanted(c, lookup)
  }

  /** The try block throws an unchecked exception: a bad port or a negative timeout. */
  predicate AttemptAborts(c: Config, lookup: Option<seq<InetAddress>>) {
    BuildsAddress(c, lookup) && (!ValidPort(c.port) || c.timeout < 0)
  }

  /** The number of successful attempts among `pings`. */
  function Successes(pings: seq<Ping>): nat {
    if |pings| == 0 then 0
    else Successes(pings[..|pings| - 1]) + if pings[|pings| - 1].success then 1 else 0
  }

  /** The number of failed attempts among `pings`. */
  function Failures(pings: seq<Ping>): nat {
    if |pings| == 0 then 0
    else Failures(pings[..|pings| - 1]) + if pings[|pings| - 1].success then 0 else 1
  }

  /** Every attempt is counted once, as a success or as a failure. */
  lemma {:induction false} CountsAddUp(pings: seq<Ping>)
    ensures Successes(pings) + Failures(pings) == |pings|
  {
    if |pings| > 0 {
      CountsAddUp(pings[..|pings| - 1]);
    }
  }

  /** The times of the successful attempts among `pings`, in order. */
  function SuccessTimes(pings: seq<Ping>): seq<real> {
    if |pings| == 0 then []
    else
      var last := pings[|pings| - 1];
      SuccessTimes(pings[..|pings| - 1]) + if last.success then [last.elapsedMs] else []
  }

  /** `ping` is what the iteration on `p` records: the outcome, the address it reports
      (the peer's after a connection, the host otherwise) and the measured time. */
  predicate Records(c: Config, p: Probe, ping: Ping) {
    && ping.success == (BuildsAddress(c, p.net.lookup) && p.net.handshake)
    && (ping.success ==> ping.remoteIp == p.net.peerIp)
    && (!ping.success ==> c.host == Some(ping.remoteIp))
    && ping.elapsedMs == p.elapsedMs
  }

  /** Each of `pings` is what the iteration on the probe at its position records. */
  predicate RecordsAll(c: Config, probes: seq<Probe>, pings: seq<Ping>) {
    && |pings| <= |probes|
    && (|pings| > 0 ==>
          RecordsAll(c, probes, pings[..|pings| - 1]) && Records(c, probes[|pings| - 1], pings[|pings| - 1]))
  }

  lemma {:induction false} RecordsAllPointwise(c: Config, probes: seq<Probe>, pings: seq<Ping>)
    requires RecordsAll(c, probes, pings)
    ensures forall k :: 0 <= k < |pings| ==> Records(c, probes[k], pings[k])
  {
    if |pings| > 0 {
      var init := pings[..|pings| - 1];
      RecordsAllPointwise(c, probes, init);
      assert forall k :: 0 <= k < |init| ==> pings[k] == init[k];
    }
  }

  /** Counters `connected`, `failed` and `times` are those at `before` plus the attempts in `pings`. */
  ghost predicate Tallied(before: (int, int, seq<real>), pings: seq<Ping>, connected: int, failed: int, times: seq<real>) {
    && connected == before.0 + Successes(pings)
    && failed == before.1 + Failures(pings)
    && times == before.2 + SuccessTimes(pings)
  }

  lemma TalliedAppend(before: (int, int, seq<real>), pings: seq<Ping>, ping: Ping, connected: int, failed: int, times: seq<real>)
    requires Tallied(before, pings, connected, failed, times)
    ensures Tallied(before, pings + [ping],
                    connected + (if ping.success then 1 else 0),
                    failed + (if ping.success then 0 else 1),
                    times + (if ping.success then [ping.elapsedMs] else []))
  {
    AppendPing(pings, ping);
    AppendLatencies(before.2, SuccessTimes(pings), if ping.success then [ping.elapsedMs] else []);
  }

  /** One iteration of the loop on the probe after `pings` keeps the recorded pings and the
      counters in step, whether the attempt recorded a ping or threw. */
  lemma IterationRecords(c: Config, probes: seq<Probe>, before: (int, int, seq<real>), pings: seq<Ping>,
                         p: Probe, ping: Option<Ping>, connected0: int, failed0: int, times0: seq<real>,
                         connected: int, failed: int, times: seq<real>)
    requires |pings| < |probes| && p == probes[|pings|] && RecordsAll(c, probes, pings)
    requires c.host.Some?
    requires Tallied(before, pings, connected0, failed0, times0)
    requires ping.None? ==> connected == connected0 && failed == failed0 && times == times0
    requires ping.Some? ==>
      && ping.value.success == (BuildsAddress(c, p.net.lookup) && p.net.handshake)
      && ping.value.remoteIp == (if ping.value.success then p.net.peerIp else c.host.value)
      && ping.value.elapsedMs == p.elapsedMs
      && (ping.value.success ==>
            connected == connected0 + 1 && failed == failed0 && times == times0 + [p.elapsedMs])
      && (!ping.value.success ==>
            connected == connected0 && failed == failed0 + 1 && times == times0)
    ensures RecordsAll(c, probes, pings + Recorded(ping))
    ensures Tallied(before, pings + Recorded(ping), connected, failed, times)
  {
    if ping.Some? {
      TalliedAppend(before, pings, ping.value, connected0, failed0, times0);
      assert (pings + [ping.value])[..|pings|] == pings;
    } else {
      assert pings + [] == pings;
    }
  }

  /** What an iteration adds to the recorded pings: its ping, or nothing when the attempt threw. */
  function Recorded(ping: Option<Ping>): (r: seq<Ping>)
    ensures |r| == if ping.Some? then 1 else 0
    ensures ping.Some? ==> r[0] == ping.value
  {
    if ping.Some? then [ping.value] else []
  }

  /** Recording one more ping adds its outcome to the counts and its time, if it connected, to the latencies. */
  lemma AppendPing(pings: seq<Ping>, ping: Ping)
    ensures (pings + [ping])[..|pings|] == pings
    ensures Successes(pings + [ping]) == Successes(pings) + if ping.success then 1 else 0
    ensures Failures(pings + [ping]) == Failures(pings) + if ping.success then 0 else 1
    ensures SuccessTimes(pings + [ping]) == SuccessTimes(pings) + if ping.success then [ping.elapsedMs] else []
  {
    assert (pings + [ping])[..|pings|] == pings;
  }

  class ConqPing {
    const config: Config
    var i: int
    var connected: int
    var failed: int
    var times: seq<real>
    /** How many times the loop has called Thread.sleep. */
    var sleeps: nat
    /** The loop was left by `break` or by an exception. */
    var stopped: bool

    ghost predicate Valid()
      reads this
    {
      && config.host.Some?
      && 0 <= connected && 0 <= failed
      && connected + failed == i
      && |times| == connected
      && (config.count != -1 ==> i <= Bound(config.count))
      && sleeps == SleepsAfter(config.count, i)
    }

    /** The state `main` reaches after its conflict check. */
    constructor (config: Config)
      requires config.host.Some? && !(config.forceV4 && config.forceV6)
      ensures Valid() && this.config == config && !stopped
      ensures i == 0 && connected == 0 && failed == 0 && times == [] && sleeps == 0
    {
      this.config := config;
      i, connected, failed, times, sleeps, stopped := 0, 0, 0, [], 0, false;
    }

    predicate Running()
      reads this
    {
      !stopped && Continues(config.count, i)
    }

    /** One iteration of `main`'s loop; `ping` is `None` when the attempt itself
        throws an unchecked exception, which records nothing. */
    method Step(p: Probe) returns (ping: Option<Ping>, next: Next)
      requires Valid() && Running()
      modifies this
      ensures Valid()
      ensures ping.None? <==> AttemptAborts(config, p.net.lookup)
      ensures ping.None? ==>
        next == Aborted && i == old(i) && connected == old(connected) && failed == old(failed) &&
        times == old(times) && sleeps == old(sleeps)
      ensures ping.Some? ==>
        && ping.value.success == (BuildsAddress(config, p.net.lookup) && p.net.handshake)
        && ping.value.remoteIp == (if ping.value.success then p.net.peerIp else config.host.value)
        && ping.value.elapsedMs == p.elapsedMs
        && i == old(i) + 1
        && (ping.value.success ==>
              connected == old(connected) + 1 && failed == old(failed) && times == old(times) + [p.elapsedMs])
        && (!ping.value.success ==>
              connected == old(connected) && failed == old(failed) + 1 && times == old(times))
        && sleeps == old(sleeps) + (if Continues(config.count, i) then 1 else 0)
        && next == (if !Continues(config.count, i) then Completed
                    else if config.interval < 0 then Aborted
                    else if p.sleepInterrupted then Interrupted
                    else Continue)
      ensures stopped <==> next != Continue
      ensures stopped <==> !Proceeds(config, p) || !Continues(config.count, i)
    {
      var success := false;
      var remoteIp := config.host.value;
      var address := ResolveAddress(config.host.value, config.port, config.forceV4, config.forceV6, p.net.lookup);
      if p.net.lookup.Some? {
        AnyWantedExists(p.net.lookup.value, config.forceV4, config.forceV6);
      }
      match address {
        case IllegalPort =>
          stopped := true;
          return None, Aborted;
        case UnknownHost =>
          success := false;
        case Found(_) =>
          if config.timeout < 0 {
            stopped := true;
            return None, Aborted;
          }
          if p.net.handshake {
            remoteIp := p.net.peerIp;
            success := true;
          }
      }
      if success {
        connected := connected + 1;
        times := times + [p.elapsedMs];
      } else {
        failed := failed + 1;
      }
      ping := Some(Ping(success, remoteIp, p.elapsedMs));
      i := i + 1;
      if config.count == -1 || i < config.count {
        sleeps := sleeps + 1;
        if config.interval < 0 {
          next := Aborted;
        } else if p.sleepInterrupted {
          next := Interrupted;
        } else {
          next := Continue;
        }
      } else {
        next := Completed;
      }
      stopped := next != Continue;
    }

    /** The loop run on `probes` until the count is reached, the loop breaks or an
        exception escapes, or the probes run out (where Ctrl-C ends the process).
        `used` counts the probes consumed; only an attempt that threw is not in `pings`. */
    method Run(probes: seq<Probe>) returns (pings: seq<Ping>, used: nat)
      requires Valid()
      modifies this
      ensures Valid()
      ensures used == |probes| || !Running()
      ensures Progress(config, probes, (old(connected), old(failed), old(times)), old(i), old(stopped),
                       pings, used, i, stopped, connected, failed, times)
    {
      ghost var before := (connected, failed, times);
      pings, used := [], 0;
      while used < |probes| && Running()
        invariant Valid()
        invariant Progress(config, probes, before, old(i), old(stopped), pings, used, i, stopped, connected, failed, times)
      {
        var p := probes[used];
        ghost var (c, f, t) := (connected, failed, times);
        var ping, next := Step(p);
        Advance(config, probes, before, old(i), old(stopped), pings, used, c, f, t,
                p, ping, i, stopped, connected, failed, times);
        pings := pings + Recorded(ping);
        used := used + 1;
      }
    }

    /** `printStats`: the summary of the counters and latencies recorded so far. */
    method PrintStats() returns (s: Summary)
      ensures s == Summarize(connected, failed, times, DoubleMaxValue, DoubleMinValue)
    {
      var total := connected + failed;
      if total == 0 {
        return Silent;
      }
      var failurePct := failed as real / total as real * 100.0;
      if connected > 0 {
        var min, max, sum := DoubleMaxValue, DoubleMinValue, 0.0;
        for k := 0 to |times|
          invariant min == Lowest(DoubleMaxValue, times[..k])
          invariant max == Highest(DoubleMinValue, times[..k])
          invariant sum == Sum(times[..k])
        {
          var t := times[k];
          ScanStep(DoubleMaxValue, DoubleMinValue, times, k);
          if t < min { min := t; }
          if t > max { max := t; }
          sum := sum + t;
        }
        assert times[..|times|] == times;
        var avg := sum / connected as real;
        return Report(total, connected, failed, failurePct, Some(Latencies(min, max, avg)));
      }
      return Report(total, connected, failed, failurePct, None);
    }
  }

  /** The loop goes on after the iteration on `p`, unless the count is reached: the
      attempt does not throw, and the sleep neither throws on a negative interval
      nor is interrupted. */
  predicate Proceeds(c: Config, p: Probe) {
    !AttemptAborts(c, p.net.lookup) && c.interval >= 0 && !p.sleepInterrupted
  }

  /** Where a run that has used `used` of `probes` and recorded `recorded` pings stands:
      every probe before the last one used let the loop go on; the last one used
      recorded nothing exactly when its attempt threw; and the loop is stopped
      exactly when that probe ended it or the count is reached. */
  ghost predicate Halted(c: Config, probes: seq<Probe>, used: nat, recorded: nat, stopped: bool, i: int, stopped0: bool)
    requires used <= |probes|
  {
    && (forall k :: 0 <= k < used - 1 ==> Proceeds(c, probes[k]))
    && (used == 0 ==> stopped == stopped0)
    && (used > 0 ==> (used == recorded + 1 <==> AttemptAborts(c, probes[used - 1].net.lookup)))
    && (used > 0 ==> (stopped <==> !Proceeds(c, probes[used - 1]) || !Continues(c.count, i)))
  }

  /** An iteration on the next probe, started while the loop runs, keeps `Halted`. */
  lemma HaltedStep(c: Config, probes: seq<Probe>, used: nat, recorded: nat, stopped0: bool,
                   p: Probe, aborted: bool, recorded': nat, stopped': bool, i': int)
    requires used < |probes| && p == probes[used] && recorded == used
    requires used > 0 ==> Proceeds(c, probes[used - 1])
    requires forall k :: 0 <= k < used - 1 ==> Proceeds(c, probes[k])
    requires aborted <==> AttemptAborts(c, p.net.lookup)
    requires recorded' == recorded + if aborted then 0 else 1
    requires stopped' <==> !Proceeds(c, p) || !Continues(c.count, i')
    ensures Halted(c, probes, used + 1, recorded', stopped', i', stopped0)
  {
  }

  /** No probe makes its attempt throw or interrupts its sleep. */
  ghost predicate Clean(c: Config, probes: seq<Probe>)
  {
    forall k :: 0 <= k < |probes| ==> !AttemptAborts(c, probes[k].net.lookup) && !probes[k].sleepInterrupted
  }

  /** The state of `main`'s loop after `used` of `probes`, from the counters `before`,
      the counter `i0` and the stop flag `stopped0` it started with: the pings
      recorded, the counters, and where the loop stands. */
  ghost predicate Progress(c: Config, probes: seq<Probe>, before: (int, int, seq<real>), i0: int, stopped0: bool,
                           pings: seq<Ping>, used: nat, i: int, stopped: bool,
                           connected: int, failed: int, times: seq<real>)
  {
    && used <= |probes| && |pings| <= used <= |pings| + 1 && (used == |pings| + 1 ==> stopped)
    && i == i0 + |pings|
    && RecordsAll(c, probes, pings)
    && Tallied(before, pings, connected, failed, times)
    && Halted(c, probes, used, |pings|, stopped, i, stopped0)
  }

  /** What a loop that ran from counter `i0` and stop flag `stopped0` until the probes ran
      out or it stopped has done: each recorded ping is the attempt on the probe at its
      position, the counters grew by exactly those attempts, every probe but the last one
      used let the loop go on, the last one used recorded nothing exactly when its attempt
      threw, and a run that left probes unused was not running from the start, or ended
      at a probe that stopped the loop, or reached the count. */
  lemma RunOutcome(c: Config, probes: seq<Probe>, before: (int, int, seq<real>), i0: int, stopped0: bool,
                   pings: seq<Ping>, used: nat, i: int, stopped: bool,
                   connected: int, failed: int, times: seq<real>)
    requires Progress(c, probes, before, i0, stopped0, pings, used, i, stopped, connected, failed, times)
    requires used == |probes| || stopped || !Continues(c.count, i)
    requires 0 <= i0 && (c.count != -1 ==> i <= Bound(c.count))
    ensures |pings| <= used <= |probes| && |pings| <= used <= |pings| + 1 && i == i0 + |pings|
    ensures forall k :: 0 <= k < |pings| ==> Records(c, probes[k], pings[k])
    ensures connected == before.0 + Successes(pings)
    ensures failed == before.1 + Failures(pings)
    ensures times == before.2 + SuccessTimes(pings)
    ensures forall k :: 0 <= k < used - 1 ==> Proceeds(c, probes[k])
    ensures used > 0 ==> (used == |pings| + 1 <==> AttemptAborts(c, probes[used - 1].net.lookup))
    ensures used < |probes| ==>
      (used == 0 && (stopped0 || !Continues(c.count, i0))) ||
      (used > 0 && (!Proceeds(c, probes[used - 1]) || !Continues(c.count, i)))
    ensures !stopped0 && c.interval >= 0 && Clean(c, probes) ==> |pings| == used == Attempts(c.count, i0, |probes|)
  {
    RecordsAllPointwise(c, probes, pings);
    if !stopped0 && c.interval >= 0 && Clean(c, probes) {
      HaltedClean(c, probes, used, |pings|, stopped, i);
      AttemptsOfStoppedLoop(c.count, i0, |pings|, |probes|);
    }
  }

  /** With a negative interval the first `Thread.sleep` throws, so a run stopped where
      `RunOutcome` says uses at most one probe and records at most one ping. */
  lemma NegativeIntervalStopsAtFirst(c: Config, probes: seq<Probe>, used: nat)
    requires c.interval < 0 && used <= |probes|
    requires forall k :: 0 <= k < used - 1 ==> Proceeds(c, probes[k])
    ensures used <= 1
  {
    assert used > 1 ==> Proceeds(c, probes[0]);
  }

  /** One iteration of the loop, on the next probe while the loop runs, keeps `Progress`. */
  lemma Advance(c: Config, probes: seq<Probe>, before: (int, int, seq<real>), i0: int, stopped0: bool,
                pings: seq<Ping>, used: nat, connected0: int, failed0: int, times0: seq<real>,
                p: Probe, ping: Option<Ping>, i: int, stopped: bool,
                connected: int, failed: int, times: seq<real>)
    requires Progress(c, probes, before, i0, stopped0, pings, used, i0 + |pings|, false, connected0, failed0, times0)
    requires used < |probes| && p == probes[used] && c.host.Some?
    requires ping.None? <==> AttemptAborts(c, p.net.lookup)
    requires ping.None? ==> i == i0 + |pings| && connected == connected0 && failed == failed0 && times == times0
    requires ping.Some? ==>
      && ping.value.success == (BuildsAddress(c, p.net.lookup) && p.net.handshake)
      && ping.value.remoteIp == (if ping.value.success then p.net.peerIp else c.host.value)
      && ping.value.elapsedMs == p.elapsedMs
      && i == i0 + |pings| + 1
      && (ping.value.success ==>
            connected == connected0 + 1 && failed == failed0 && times == times0 + [p.elapsedMs])
      && (!ping.value.success ==>
            connected == connected0 && failed == failed0 + 1 && times == times0)
    requires stopped <==> !Proceeds(c, p) || !Continues(c.count, i)
    ensures Progress(c, probes, before, i0, stopped0, pings + Recorded(ping), used + 1, i, stopped, connected, failed, times)
  {
    IterationRecords(c, probes, before, pings, p, ping, connected0, failed0, times0, connected, failed, times);
    HaltedStep(c, probes, used, |pings|, stopped0, p, ping.None?, |pings + Recorded(ping)|, stopped, i);
  }

  /** On probes that neither throw nor interrupt, with a non-negative interval, every
      probe used recorded a ping and the loop stopped only at the count. */
  lemma HaltedClean(c: Config, probes: seq<Probe>, used: nat, recorded: nat, stopped: bool, i: int)
    requires used <= |probes| && recorded <= used <= recorded + 1
    requires Halted(c, probes, used, recorded, stopped, i, false)
    requires c.interval >= 0 && Clean(c, probes)
    ensures used == recorded && (stopped ==> !Continues(c.count, i))
  {
    if used > 0 {
      assert !AttemptAborts(c, probes[used - 1].net.lookup) && !probes[used - 1].sleepInterrupted;
    }
  }

  /** `main` from the conflict check on: the loop, then the summary the shutdown
      hook prints however the program ends (loop completed, break, uncaught
      exception or Ctrl-C). */
  method Session(config: Config, probes: seq<Probe>) returns (pings: seq<Ping>, used: nat, summary: Summary, sleeps: nat)
    requires config.host.Some? && !(config.forceV4 && config.forceV6)
    ensures |pings| <= used <= |probes| && used <= |pings| + 1
    ensures forall k :: 0 <= k < used - 1 ==> Proceeds(config, probes[k])
    ensures used > 0 ==> (used == |pings| + 1 <==> AttemptAborts(config, probes[used - 1].net.lookup))
    ensures used < |probes| ==> !Continues(config.count, |pings|) || (used > 0 && !Proceeds(config, probes[used - 1]))
    ensures forall k :: 0 <= k < |pings| ==> Records(config, probes[k], pings[k])
    ensures config.interval >= 0 && Clean(config, probes) ==>
      |pings| == Attempts(config.count, 0, |probes|)
    ensures summary == Summarize(Successes(pings), Failures(pings), SuccessTimes(pings), DoubleMaxValue, DoubleMinValue)
    ensures sleeps == SleepsAfter(config.count, |pings|)
    ensures config.count >= 1 && |pings| == config.count ==> sleeps == config.count - 1
  {
    var loop := new ConqPing(config);
    pings, used := loop.Run(probes);
    ghost var connected, failed, times := loop.connected, loop.failed, loop.times;
    RunOutcome(config, probes, (0, 0, []), 0, false, pings, used, loop.i, loop.stopped, connected, failed, times);
    sleeps := loop.sleeps;
    summary := loop.PrintStats();
    SummaryOfPings(pings, connected, failed, times);
    assert config.count >= 1 && |pings| == config.count ==> sleeps == config.count - 1 by {
      if config.count >= 1 && |pings| == config.count {
        SleepsBetweenAttempts(config.count);
      }
    }
  }

  lemma SummaryOfPings(pings: seq<Ping>, connected: int, failed: int, times: seq<real>)
    requires connected == Successes(pings) && failed == Failures(pings) && times == SuccessTimes(pings)
    ensures Summarize(connected, failed, times, DoubleMaxValue, DoubleMinValue)
      == Summarize(Successes(pings), Failures(pings), SuccessTimes(pings), DoubleMaxValue, DoubleMinValue)
  {
  }

  /** The Double.MIN_VALUE start of `max` is positive: when every latency is 0 ms
      the reported maximum is Double.MIN_VALUE, not 0. */
  lemma ZeroLatenciesReportTinyMax(n: nat, failed: nat)
    requires n > 0
    ensures var s := Summarize(n, failed, seq(n, _ => 0.0), DoubleMaxValue, DoubleMinValue);
      s.Report? && s.latencies.Some? && s.latencies.value.max == DoubleMinValue && DoubleMinValue > 0.0
  {
    var zeros := seq(n, _ => 0.0);
    DoubleMinValuePositive();
    assert Highest(DoubleMinValue, zeros) == DoubleMinValue by {
      HighestOfSmaller(DoubleMinValue, zeros);
    }
  }

  lemma DoubleMinValuePositive()
    ensures DoubleMinValue > 0.0
  {
    var p := Pow2(1074);
    assert DoubleMinValue == 1.0 / p;
  }

  lemma HighestOfSmaller(start: real, s: seq<real>)
    requires forall k :: 0 <= k < |s| ==> s[k] < start
    ensures Highest(start, s) == start
  {
  }

  /** With every latency between Double.MIN_VALUE and Double.MAX_VALUE, the
      reported minimum and maximum are the true least and greatest latencies,
      and the average lies between them. */
  lemma ReportedRangeExact(connected: nat, failed: nat, times: seq<real>)
    requires |times| == connected > 0
    requires forall k :: 0 <= k < |times| ==> DoubleMinValue <= times[k] <= DoubleMaxValue
    ensures var s := Summarize(connected, failed, times, DoubleMaxValue, DoubleMinValue);
      && s.Report? && s.latencies.Some?
      && IsMinimum(s.latencies.value.min, times) && IsMaximum(s.latencies.value.max, times)
      && s.latencies.value.min <= s.latencies.value.avg <= s.latencies.value.max
  {
    LatenciesExact(connected, failed, times, DoubleMaxValue, DoubleMinValue);
    LatenciesOrdered(connected, failed, times, DoubleMaxValue, DoubleMinValue);
  }

  /** A run in which every attempt failed reports 100% failures and no latencies. */
  lemma AllFailedSummary(pings: seq<Ping>)
    requires |pings| > 0 && forall k :: 0 <= k < |pings| ==> !pings[k].success
    ensures Summarize(Successes(pings), Failures(pings), SuccessTimes(pings), DoubleMaxValue, DoubleMinValue)
      == Report(|pings|, 0, |pings|, 100.0, None)
  {
    NoSuccesses(pings);
    FailurePercentRange(0, |pings|);
  }

  lemma {:induction false} NoSuccesses(pings: seq<Ping>)
    requires forall k :: 0 <= k < |pings| ==> !pings[k].success
    ensures Successes(pings) == 0 && Failures(pings) == |pings| && SuccessTimes(pings) == []
  {
    if |pings| > 0 {
      NoSuccesses(pings[..|pings| - 1]);
    }
  }
}
