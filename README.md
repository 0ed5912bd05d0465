# ConqPing in Dafny

ConqPing is a TCP "ping". Given a host and a port, it repeatedly opens a TCP
connection. It reports each attempt as connected (with the peer address and
the time taken) or timed out. At the end it prints a summary: attempts,
connections, failures, the failure percentage, and the minimum, maximum and
average connection time. The repository ships two independent versions,
`cpp/conqping.cpp` and `java/src/ConqPing.java`. This project models both.

| module | file | models |
|---|---|---|
| `Options` | options.dfy | the `Option` type |
| `Decimal` | decimal.dfy | decimal digit strings, int bounds |
| `Statistics` | statistics.dfy | the summary printStats derives from the counters (shared by both versions) |
| `ProbeCount` | probe_count.dfy | how many attempts and sleeps the `count`-bounded loop makes |
| `CppArgs` | cpp_args.dfy | C++ `parseArgs` and `std::stoi`, `main` up to the loop |
| `CppConnect` | cpp_connect.dfy | one C++ attempt: family hint, `timeval`, the getaddrinfo/socket/connect/select decision table |
| `CppProbe` | cpp_probe.dfy | class `ProbeLoop` (the `Stats` global and the loop counter), `printStats`, the SIGINT path |
| `JavaArgs` | java_args.dfy | Java `parseArgs`, `Integer.parseInt`, `main` up to the loop |
| `JavaResolve` | java_resolve.dfy | `resolveAddress` |
| `JavaProbe` | java_probe.dfy | class `ConqPing` (the static counters), `printStats`, the shutdown hook |

How the model is built:

- **Inputs instead of I/O.** The outside world is a list of per-iteration
  inputs. For C++ these are what getaddrinfo, socket, connect and select
  return. For Java they are the resolver's answer, whether the handshake
  completes, and whether the sleep is interrupted. Each also carries the time
  the clock measured.
- **Loops as methods.** The loops are methods on a class whose fields are the
  source's counters. `Run` consumes inputs until the count is reached, the
  loop stops, or the inputs run out. Running out stands for the interrupt
  (Ctrl-C) that ends an unbounded run.
- **printStats.** Each version's `printStats` is a loop, proved equal to the
  function `Statistics.Summarize`. The starting values of `min` and `max` are
  parameters of that function (C++: 1e9 and -1; Java: `Double.MAX_VALUE` and
  `Double.MIN_VALUE`).
- **Argument parsing.** Each `parseArgs` is a loop, proved equal to
  `Apply(Tokenize(argv, start), Defaults)`. `Tokenize` groups the arguments the
  way the loop consumes them. `Apply` runs the groups against the
  configuration.

The two versions differ in two ways that the model keeps:

- **C++ prints no summary after a completed run.** In `cpp/conqping.cpp`,
  `main` returns after its loop (lines 262-267) without calling `printStats`.
  Only the SIGINT handler calls it (lines 136-139). `CppProbe.Session`
  therefore yields a summary exactly when the run ended by interrupt. Java
  registers a shutdown hook that calls `printStats`
  (`java/src/ConqPing.java:57-61`), so it prints the summary on every exit after
  that point. The exits before it (bad arguments, the `-4`/`-6` conflict) come
  before any attempt and print no summary.
- **C++ accepts `-4` together with `-6`.** Java rejects the combination
  (`java/src/ConqPing.java:47-50`). The C++ version has no such check, and
  `-6` wins when both are given.

## Model

| member | source | states |
|---|---|---|
| `Decimal.ValueOfShow` | cpp/conqping.cpp:73 | the decimal rendering of a number reads back as that number |
| `Decimal.DigitRunOfDigits` | cpp/conqping.cpp:73 | the digit run `std::stoi` reads stops at the first non-digit |
| `CppArgs.Set` | cpp/conqping.cpp:72-79 | a value option sets its own global and leaves the others, the host and the flags unchanged |
| `CppArgs.StoI` | cpp/conqping.cpp:73 | `std::stoi` after leading C-locale white space and an optional sign reads the longest digit run; a result is always in the int range, and is negative only if the string holds a '-'; `None` (the exception) otherwise |
| `CppArgs.StoIReadsRendering` | cpp/conqping.cpp:73 | `std::stoi` accepts leading white space and trailing text that does not start with a digit; it reads back any number in the int range and rejects every number outside it |
| `CppArgs.StoIRejectsDigitless` | cpp/conqping.cpp:73 | `std::stoi` rejects a string that has no digit |
| `CppArgs.SkipSpaceLeading` | cpp/conqping.cpp:73 | skipping white space removes exactly the leading white space |
| `CppArgs.TokensSpellArguments` | cpp/conqping.cpp:69-91 | the tokens the loop consumes, concatenated, are exactly the arguments after the program name |
| `CppArgs.TokenizeHead` | cpp/conqping.cpp:70-79 | each loop turn consumes one argument, or two for a value option that has a value after it, and the scan goes on after them; only the last argument can be a dangling option |
| `CppArgs.OnlyLastOptionDangles` | cpp/conqping.cpp:72-79 | a value option is skipped for lack of a value only when it is the last argument |
| `CppArgs.HostIsLastBare` | cpp/conqping.cpp:88-97 | an accepted command line's host is the last argument that does not start with '-' and is not taken as an option's value (the last `Bare` token), and it is non-empty |
| `CppArgs.LastValueWins` | cpp/conqping.cpp:72-79 | of repeated value options, the last one's value is the one kept |
| `CppArgs.ForceFlagsSet` | cpp/conqping.cpp:80-83 | `-4`/`-6` are set in the result if and only if given (or already set) |
| `CppArgs.EmptyHostRejected` | cpp/conqping.cpp:93-97 | without help and with valid numbers, the line is accepted if and only if the last bare argument is non-empty, and otherwise rejected for the missing host |
| `CppArgs.ExitsHaveCause` | cpp/conqping.cpp:73-87 | an early exit is caused by a help option, or by a value `std::stoi` rejects that occurs in the line |
| `CppArgs.StepValued` | cpp/conqping.cpp:72-79 | one loop turn on a value option followed by a value: parse it or stop on the bad number |
| `CppArgs.StepDangling` | cpp/conqping.cpp:72-79 | one loop turn on a value option with no value left: it is ignored |
| `CppArgs.StepSingle` | cpp/conqping.cpp:71-90 | one loop turn on any other argument: host, `-4`, `-6`, help, or an ignored dash argument |
| `CppArgs.ParseArgs` | cpp/conqping.cpp:68-98 | the loop over argv from index 1 yields exactly the reference result `Apply(Tokenize(argv, 1), Defaults)` |
| `CppArgs.Configure` | cpp/conqping.cpp:157-162 | usage when there is no argument; otherwise the loop starts if and only if parsing accepted, with a non-empty host |
| `CppConnect.ToTimeval` | cpp/conqping.cpp:207-209 | the select timeout is the millisecond timeout (seconds times 1000 plus microseconds over 1000), whole milliseconds, and well formed if and only if the timeout is non-negative |
| `CppConnect.ChooseFamily` | cpp/conqping.cpp:170-176 | the hint is IPv6 if and only if `-6`, IPv4 if and only if `-4` without `-6`, and unspecified if and only if neither |
| `CppConnect.Connect` | cpp/conqping.cpp:181-230 | success if and only if resolved with a valid socket, and either connect succeeded or it was pending and select reported ready; select is waited on if and only if connect is pending, using `ToTimeval(timeout)`; a socket is closed if and only if one was opened; the reported address is the peer's on success, else the host |
| `CppConnect.SelectOnlyDecidesPending` | cpp/conqping.cpp:197-215 | when the attempt did not wait, the select result cannot change the outcome |
| `CppConnect.ExpiredWaitFails` | cpp/conqping.cpp:210-211 | a wait that times out or errors is a failure reporting the host |
| `ProbeCount.Attempts` | cpp/conqping.cpp:168-169 | a bounded run with enough inputs makes exactly `max(count, 0)` attempts; an unbounded one uses every input |
| `ProbeCount.AttemptsOfStoppedLoop` | cpp/conqping.cpp:168-169 | a loop that stopped because the count was reached or the inputs ran out made `Attempts` attempts |
| `ProbeCount.LoopStopsAtBound` | cpp/conqping.cpp:169 | the loop condition fails if and only if the run is bounded and the count is reached |
| `ProbeCount.SleepsBetweenAttempts` | cpp/conqping.cpp:258-261 | a completed run of `count` attempts sleeps `count - 1` times: never after the last attempt |
| `Statistics.Lowest` | cpp/conqping.cpp:111-116 | the running minimum is below the start and every latency, and is the start or one of the latencies |
| `Statistics.Highest` | cpp/conqping.cpp:111-116 | the running maximum is above the start and every latency, and is the start or one of the latencies |
| `Statistics.ScanStep` | cpp/conqping.cpp:112-116 | one turn of the scan updates the minimum, the maximum and the sum by the next latency |
| `Statistics.SumBetween` | cpp/conqping.cpp:115 | the sum of n latencies in [lo, hi] lies in [n·lo, n·hi] |
| `Statistics.MeanBetween` | cpp/conqping.cpp:117 | the average lies between the reported minimum and maximum |
| `Statistics.MeanOfBounded` | cpp/conqping.cpp:115-117 | the average of latencies that all lie in [lo, hi] lies in [lo, hi] |
| `Statistics.SummaryShape` | cpp/conqping.cpp:101-110 | nothing is printed if and only if there were no attempts; attempted = connected + failed; latencies appear if and only if something connected |
| `Statistics.FailurePercentRange` | cpp/conqping.cpp:108 | the failure percentage is in [0, 100]; it is 100 if and only if nothing connected and 0 if and only if nothing failed |
| `Statistics.LatenciesOrdered` | cpp/conqping.cpp:110-117 | minimum ≤ average ≤ maximum whenever latencies are reported |
| `Statistics.LatenciesExact` | cpp/conqping.cpp:110-117 | with every latency between the two starting values, the reported minimum and maximum are the true least and greatest latencies |
| `CppProbe.ProbeLoop.constructor` | cpp/conqping.cpp:50-54 | the counters start at zero with no latencies |
| `CppProbe.CountsAddUp` | cpp/conqping.cpp:245-253 | every attempt is counted once, as a success or as a failure |
| `CppProbe.IterationRecords` | cpp/conqping.cpp:169-261 | one iteration extends the recorded attempts by the `Connect` of its input and the counters and latencies by that attempt |
| `CppProbe.AppendPing` | cpp/conqping.cpp:245-253 | recording one more attempt adds 1 to the successes exactly when it connected, and appends its time exactly then |
| `CppProbe.ProbeLoop.Step` | cpp/conqping.cpp:169-261 | one iteration: the attempt is `Connect`; on success connected grows by 1 and the time is appended, otherwise failed grows by 1; i grows by 1; a sleep follows if and only if the loop goes on |
| `CppProbe.ProbeLoop.Run` | cpp/conqping.cpp:168-262 | exactly `Attempts(count, i, inputs)` iterations, each one the `Connect` of its input with its measured time; the counters and latencies grow by the successes and failures of those attempts, in order |
| `CppProbe.ProbeLoop.PrintStats` | cpp/conqping.cpp:100-124 | the loop computes exactly `Summarize(connected, failed, times, 1e9, -1)` |
| `CppProbe.Session` | cpp/conqping.cpp:136-139 | the run makes `Attempts(count, 0, inputs)` attempts, each the `Connect` of its input with its measured time; a summary is printed if and only if the loop was still running when interrupted, and it is the summary of exactly those attempts' successes, failures and latencies; the loop slept once after every attempt but the last of a bounded run, so a completed run of `count` attempts slept `count - 1` times |
| `CppProbe.ReportedRangeExact` | cpp/conqping.cpp:111-117 | with latencies in [-1, 1e9] ms, the minimum and maximum are exact and the average lies between them |
| `CppProbe.AllFailedSummary` | cpp/conqping.cpp:101-110 | after only failed attempts the summary is attempted = failed = n, 0 connected, 100%, no latencies |
| `JavaArgs.Set` | java/src/ConqPing.java:126-144 | a value option sets its own field and leaves the others, the host and the flags unchanged |
| `JavaArgs.ParseInt` | java/src/ConqPing.java:129 | `Integer.parseInt` takes an optional sign and then digits only; a result comes from a non-empty string, is always in the int range, and is negative only after a leading '-'; `None` (NumberFormatException) otherwise |
| `JavaArgs.ParseIntReadsRendering` | java/src/ConqPing.java:129 | `Integer.parseInt` reads back the rendering of any int and rejects every number outside the int range |
| `JavaArgs.ParseIntIsStrict` | java/src/ConqPing.java:129 | `Integer.parseInt` accepts only an optional sign followed by at least one digit, with nothing else |
| `JavaArgs.TokensSpellArguments` | java/src/ConqPing.java:122-165 | the tokens the loop consumes, concatenated, are exactly the arguments |
| `JavaArgs.TokenizeHead` | java/src/ConqPing.java:122-144 | each loop turn consumes one argument, or two for a value option that has a value after it, and the scan goes on after them; only the last argument can be a dangling option |
| `JavaArgs.OnlyLastOptionDangles` | java/src/ConqPing.java:126-144 | a value option is skipped for lack of a value only when it is the last argument |
| `JavaArgs.QuestionMarkIsBare` | java/src/ConqPing.java:124 | "?" does not start with '-', so it is taken as the host and its switch label is never reached |
| `JavaArgs.HostIsLastBare` | java/src/ConqPing.java:162-171 | an accepted command line has a host: the last argument that does not start with '-' and is not taken as an option's value (the last `Bare` token) |
| `JavaArgs.LastValueWins` | java/src/ConqPing.java:126-144 | of repeated value options, the last one's value is the one kept |
| `JavaArgs.RejectionCause` | java/src/ConqPing.java:151-171 | an accepted line has no help and no unknown option; each rejection names an argument of the line that caused it, or the missing host |
| `JavaArgs.ForceFlagsSet` | java/src/ConqPing.java:145-150 | `-4`/`-6` are set in the result if and only if given (or already set) |
| `JavaArgs.StepValued` | java/src/ConqPing.java:126-144 | one loop turn on a value option followed by a value: parse it or stop on the bad number |
| `JavaArgs.StepDangling` | java/src/ConqPing.java:126-144 | one loop turn on a value option with no value left: it is ignored |
| `JavaArgs.StepSingle` | java/src/ConqPing.java:124-164 | one loop turn on any other argument: host, `-4`, `-6`, help, or an unknown argument |
| `JavaArgs.ParseArgs` | java/src/ConqPing.java:121-172 | the loop yields exactly the reference result `Apply(Tokenize(args, 0), Defaults)` |
| `JavaArgs.Configure` | java/src/ConqPing.java:38-50 | usage if and only if there are no arguments; rejection if and only if parsing failed; the conflict error if and only if both `-4` and `-6` were given; otherwise the loop starts with a host |
| `JavaResolve.ResolveAddress` | java/src/ConqPing.java:104-119 | without `-4`/`-6` the host is passed by name; with a flag, the first resolved address of the requested family, UnknownHost if and only if there is none, and an illegal port is an error only once an address is built |
| `JavaProbe.ConqPing.constructor` | java/src/ConqPing.java:24-26 | the counters `connected` and `failed` start at zero with no latencies (lines 24-26), and the loop counter `i` at 0 (line 63) |
| `JavaProbe.CountsAddUp` | java/src/ConqPing.java:79-89 | every attempt is counted once, as a success or as a failure |
| `JavaProbe.IterationRecords` | java/src/ConqPing.java:64-100 | one iteration extends the recorded attempts by the attempt on its input (outcome, reported address, time), and the counters and latencies by that attempt; an attempt that throws records nothing |
| `JavaProbe.AnyWantedExists` | java/src/ConqPing.java:104-119 | the resolver's answer holds an address of a requested family if and only if some address in it is of that family |
| `JavaProbe.AppendPing` | java/src/ConqPing.java:79-89 | recording one more attempt adds 1 to the successes exactly when it connected, and appends its time exactly then |
| `JavaProbe.ConqPing.Step` | java/src/ConqPing.java:64-100 | one iteration: the attempt throws if and only if an address is built with an illegal port or a negative timeout; otherwise success if and only if an address was built and the handshake completed, and the counters are updated; the loop goes on, completes, breaks on interrupt, or throws on a negative interval |
| `JavaProbe.ConqPing.Run` | java/src/ConqPing.java:63-101 | the loop runs until the probes run out or it stops, and keeps `Progress`: the pings recorded so far, each the attempt on its probe, the counters grown by exactly those attempts, `i` grown by their number, and where the loop stands (`Halted`) |
| `JavaProbe.RunOutcome` | java/src/ConqPing.java:63-101 | what a stopped loop has done: each recorded ping is the attempt on the probe at its position; the counters grew by exactly those attempts; every probe before the last one used let the loop go on; the last one used recorded nothing exactly when its attempt threw; probes were left unused only if the loop was not running from the start, or the last probe used stopped it, or the count was reached; with no throwing or interrupting probe and a non-negative interval, exactly `Attempts(count, i, inputs)` attempts |
| `JavaProbe.Advance` | java/src/ConqPing.java:64-100 | one iteration while the loop runs keeps `Progress`: the ping, if any, is appended, and the loop is stopped exactly when the probe threw, met a negative interval or was interrupted, or the count was reached |
| `JavaProbe.NegativeIntervalStopsAtFirst` | java/src/ConqPing.java:93-95 | with a negative interval `Thread.sleep` throws after the first attempt, so the run uses at most one probe |
| `JavaProbe.ConqPing.PrintStats` | java/src/ConqPing.java:174-206 | the loop computes exactly `Summarize(connected, failed, times, Double.MAX_VALUE, Double.MIN_VALUE)` |
| `JavaProbe.Session` | java/src/ConqPing.java:57-101 | every recorded attempt matches its input in order (outcome, reported address, measured time); the run goes on past a probe only if that probe neither threw, nor met a negative interval, nor had its sleep interrupted, and it stops at the first probe that did one of these or when the count is reached; only a probe whose attempt threw is used without a ping; with no such probes it makes `Attempts(count, 0, inputs)` attempts; the shutdown hook's summary is that of exactly the successes, failures and latencies recorded, however the run ended; a completed run of `count` attempts slept `count - 1` times |
| `JavaProbe.ZeroLatenciesReportTinyMax` | java/src/ConqPing.java:188-195 | `Double.MIN_VALUE` is positive, so when every latency is 0 ms the reported maximum is `Double.MIN_VALUE`, not 0 |
| `JavaProbe.DoubleMinValuePositive` | java/src/ConqPing.java:188 | `Double.MIN_VALUE`, the starting value of `max`, is positive |
| `JavaProbe.ReportedRangeExact` | java/src/ConqPing.java:186-198 | with latencies in [`Double.MIN_VALUE`, `Double.MAX_VALUE`], the minimum and maximum are exact and the average lies between them |
| `JavaProbe.AllFailedSummary` | java/src/ConqPing.java:174-185 | after only failed attempts the summary is attempted = failed = n, 0 connected, 100%, no latencies |

## Left out

- Sockets, DNS, clocks and sleeping are inputs: one set of results per iteration. How long an attempt or a sleep takes is not modelled. Each iteration's measured time is an input.
- The Ctrl-C signal is modelled as the inputs running out. Its asynchronous delivery in the middle of an attempt or a sleep is not modelled. The C++ handler also calls `printStats` and `exit` from signal context, which is not modelled.
- Printing, ANSI colours, two-decimal formatting and the usage text are left out. The model keeps only what is printed: the per-attempt records and the summary values.
- Windows-only code is left out: WSAStartup/WSACleanup, the console mode, `SetConsoleCtrlHandler`, `WSAEWOULDBLOCK`, and the `INVALID_SOCKET` form of `IS_VALID_SOCKET`. The POSIX definitions are used.
- Latencies, sums and percentages are exact `real`s, not IEEE doubles. Rounding, and overflow of the running sum, are not modelled.
- The `int` loop counter `i` and the `connected`/`failed` counters are unbounded in both versions: C++ `cpp/conqping.cpp:168` and the `Stats` fields, Java `java/src/ConqPing.java:25-26` and 63. Their overflow after 2^31 attempts of an unbounded run is not modelled.
- The C++ timeout is handed to select with no check; what select does with a malformed (negative) `timeval` is the operating system's business. `CppConnect.ToTimeval` states when the value is malformed, and the select result stays an input.
- `JavaArgs.ParseInt` accepts only ASCII digits. `Integer.parseInt` also accepts other Unicode decimal digits.
- The C++ `std::stoi` is modelled for the "C" locale's white-space set and ASCII digits only.
- `CppArgs.ParseArgs`, `JavaArgs.ParseArgs`: the four value options are one branch that selects the setting. The source writes four copies of the same branch. The model covers every branch.
- The Java shutdown hook runs on a separate thread at JVM exit. The model runs `printStats` after the loop, once.
