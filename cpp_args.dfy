/**
 Command-line parsing of the C++ version (`parseArgs`) and the integer
 conversion it relies on (`std::stoi`).

 `parseArgs` scans argv from index 1, left to right. The reference definition
 splits that scan in two: `Tokenize` groups the arguments the way the loop
 consumes them (a value option takes the following argument when there is
 one), and `Apply` runs the tokens against the configuration, stopping at
 `-h`/`--help` (exit 0) or at a value `std::stoi` rejects (an uncaught
 exception), and finally rejecting an empty host (exit 1).
 */
module CppArgs {
  import opened Options
  import opened Decimal

  datatype Config = Config(host: string, port: int, count: int, timeout: int, interval: int, forceV4: bool, forceV6: bool)

  /** The globals' initial values; `count == -1` means "until interrupted". */
  const Defaults: Config := Config("", 80, -1, 1000, 1000, false, false)

  /** The options that take a value. */
  datatype Setting = Port | Count | Timeout | Interval

  function Get(c: Config, st: Setting): int {
    match st
    case Port => c.port
    case Count => c.count
    case Timeout => c.timeout
    case Interval => c.interval
  }

  function Set(c: Config, st: Setting, n: int): (d: Config)
    ensures Get(d, st) == n
    ensures forall other :: other != st ==> Get(d, other) == Get(c, other)
    ensures d.host == c.host && d.forceV4 == c.forceV4 && d.forceV6 == c.forceV6
  {
    match st
    case Port => c.(port := n)
    case Count => c.(count := n)
    case Timeout => c.(timeout := n)
    case Interval => c.(interval := n)
  }

  function SettingOf(arg: string): Option<Setting> {
    if arg == "-p" || arg == "--port" then Some(Port)
    else if arg == "-c" || arg == "--count" then Some(Count)
    else if arg == "-t" || arg == "--timeout" then Some(Timeout)
    else if arg == "--interval" then Some(Interval)
    else None
  }

  // ---------------------------------------------------------------- std::stoi

  /** `isspace` in the "C" locale. */
  predicate IsSpace(c: char) {
    c == ' ' || c == '\t' || c == '\n' || c == '\U{000B}' || c == '\U{000C}' || c == '\r'
  }

  function SkipSpace(s: string): string {
    if |s| > 0 && IsSpace(s[0]) then SkipSpace(s[1..]) else s
  }

  /** `std::stoi(s)`: leading white space, an optional sign and then the longest
      run of digits (anything after it is ignored); `None` stands for the
      exception thrown when there is no digit or the value does not fit in an int. */
  function StoI(s: string): (r: Option<int>)
    ensures r.Some? ==> IntMin <= r.value <= IntMax
    ensures r.Some? && r.value < 0 ==> '-' in s
  {
    SkipSpaceSuffix(s);
    var t := SkipSpace(s);
    var signed := |t| > 0 && (t[0] == '-' || t[0] == '+');
    var d := DigitRun(if signed then t[1..] else t);
    if |d| == 0 then None
    else
      var v: int := if signed && t[0] == '-' then -(Value(d) as int) else Value(d);
      assert signed ==> s[|s| - |t|] == t[0];
      if IntMin <= v <= IntMax then Some(v) else None
  }

  lemma {:induction false} SkipSpaceLeading(ws: string, s: string)
    requires forall k :: 0 <= k < |ws| ==> IsSpace(ws[k])
    requires |s| == 0 || !IsSpace(s[0])
    ensures SkipSpace(ws + s) == s
  {
    if |ws| > 0 {
      assert (ws + s)[1..] == ws[1..] + s;
      SkipSpaceLeading(ws[1..], s);
    }
  }

  /** `std::stoi` reads back the rendering of any number, after any white space
      and before any text that does not start with a digit, and it rejects
      exactly the numbers outside the int range. */
  lemma StoIReadsRendering(ws: string, n: int, rest: string)
    requires forall k :: 0 <= k < |ws| ==> IsSpace(ws[k])
    requires |rest| == 0 || !IsDigit(rest[0])
    ensures StoI(ws + ShowInt(n) + rest) == if IntMin <= n <= IntMax then Some(n) else None
  {
    var shown := ShowInt(n);
    assert ws + shown + rest == ws + (shown + rest);
    assert (shown + rest)[0] == shown[0];
    SkipSpaceLeading(ws, shown + rest);
    ValueOfShow(if n < 0 then -n else n);
    if n < 0 {
      assert (shown + rest)[1..] == Show(-n) + rest;
      DigitRunOfDigits(Show(-n), rest);
    } else {
      DigitRunOfDigits(Show(n), rest);
    }
  }

  /** A string without any digit is always rejected. */
  lemma StoIRejectsDigitless(s: string)
    requires forall k :: 0 <= k < |s| ==> !IsDigit(s[k])
    ensures StoI(s) == None
  {
    SkipSpaceSuffix(s);
  }

  lemma {:induction false} SkipSpaceSuffix(s: string)
    ensures |SkipSpace(s)| <= |s| && SkipSpace(s) == s[|s| - |SkipSpace(s)|..]
  {
    if |s| > 0 && IsSpace(s[0]) {
      SkipSpaceSuffix(s[1..]);
    }
  }

  // ---------------------------------------------------------------- tokens

  /** How the loop of parseArgs consumes the arguments. */
  datatype Token =
    | Valued(setting: Setting, option: string, value: string)  // a value option and the argument after it
    | Dangling(option: string)                                  // a value option with nothing after it: ignored
    | ForceV4
    | ForceV6
    | Help(option: string)
    | Ignored(arg: string)                                      // any other argument starting with '-'
    | Bare(arg: string)                                         // any argument not starting with '-': the host

  /** The arguments a token was made from. */
  function Text(t: Token): seq<string> {
    match t
    case Valued(_, option, value) => [option, value]
    case Dangling(option) => [option]
    case ForceV4 => ["-4"]
    case ForceV6 => ["-6"]
    case Help(option) => [option]
    case Ignored(arg) => [arg]
    case Bare(arg) => [arg]
  }

  function Flatten(ts: seq<Token>): seq<string> {
    if |ts| == 0 then [] else Text(ts[0]) + Flatten(ts[1..])
  }

  /** The argument starts with '-'; an empty argument does not, since its first
      character is the terminating NUL. */
  predicate IsDashed(arg: string) {
    |arg| > 0 && arg[0] == '-'
  }

  function Tokenize(argv: seq<string>, i: nat): seq<Token>
    requires i <= |argv|
    decreases |argv| - i
  {
    if i == |argv| then []
    else
      var arg := argv[i];
      if !IsDashed(arg) then [Bare(arg)] + Tokenize(argv, i + 1)
      else if SettingOf(arg).Some? then
        if i + 1 < |argv| then [Valued(SettingOf(arg).value, arg, argv[i + 1])] + Tokenize(argv, i + 2)
        else [Dangling(arg)]
      else if arg == "-4" then [ForceV4] + Tokenize(argv, i + 1)
      else if arg == "-6" then [ForceV6] + Tokenize(argv, i + 1)
      else if arg == "-h" || arg == "--help" then [Help(arg)] + Tokenize(argv, i + 1)
      else [Ignored(arg)] + Tokenize(argv, i + 1)
  }

  lemma FlattenCons(t: Token, ts: seq<Token>)
    ensures Flatten([t] + ts) == Text(t) + Flatten(ts)
  {
    assert ([t] + ts)[1..] == ts;
  }

  /** One step of the scan: the first token is made of the next `w` arguments
      and the tokens of the rest follow it; a dangling option is the last argument. */
  lemma TokenizeHead(argv: seq<string>, i: nat) returns (w: nat)
    requires i < |argv|
    ensures 1 <= w && i + w <= |argv|
    ensures Tokenize(argv, i) == [Tokenize(argv, i)[0]] + Tokenize(argv, i + w)
    ensures Text(Tokenize(argv, i)[0]) == argv[i..i + w]
    ensures Tokenize(argv, i)[0].Dangling? ==> i + 1 == |argv| && Tokenize(argv, i)[0].option == argv[i]
  {
    var arg := argv[i];
    w := if IsDashed(arg) && SettingOf(arg).Some? && i + 1 < |argv| then 2 else 1;
    assert argv[i..i + w] == if w == 2 then [arg, argv[i + 1]] else [arg];
  }

  lemma SplitArguments(s: seq<string>, a: nat, b: nat)
    requires a <= b <= |s|
    ensures s[a..] == s[a..b] + s[b..]
  {
  }

  /** Tokenizing loses and invents nothing: the tokens spell out the arguments. */
  lemma {:induction false} TokensSpellArguments(argv: seq<string>, i: nat)
    requires i <= |argv|
    ensures Flatten(Tokenize(argv, i)) == argv[i..]
    decreases |argv| - i
  {
    if i < |argv| {
      var w := TokenizeHead(argv, i);
      var head, rest := Tokenize(argv, i)[0], Tokenize(argv, i + w);
      calc {
        Flatten(Tokenize(argv, i));
        Flatten([head] + rest);
        { FlattenCons(head, rest); }
        Text(head) + Flatten(rest);
        { TokensSpellArguments(argv, i + w); }
        argv[i..i + w] + argv[i + w..];
        { SplitArguments(argv, i, i + w); }
        argv[i..];
      }
    }
  }

  /** A value option is ignored only when it is the very last argument. */
  lemma {:induction false} OnlyLastOptionDangles(argv: seq<string>, i: nat, k: nat)
    requires i <= |argv|
    requires k < |Tokenize(argv, i)| && Tokenize(argv, i)[k].Dangling?
    ensures k == |Tokenize(argv, i)| - 1 && Tokenize(argv, i)[k].option == argv[|argv| - 1]
    decreases |argv| - i
  {
    var w := TokenizeHead(argv, i);
    if k > 0 {
      OnlyLastOptionDangles(argv, i + w, k - 1);
    }
  }


  // ---------------------------------------------------------------- interpretation

  datatype Parsed =
    | Ok(config: Config)
    | ShowHelp              // usage printed, exit status 0
    | BadNumber(text: string)  // std::stoi threw: the program terminates
    | MissingHost           // no host given: exit status 1

  /** The effect of the tokens, in order, on the configuration. */
  function Apply(toks: seq<Token>, c: Config): Parsed {
    if |toks| == 0 then
      if c.host == "" then MissingHost else Ok(c)
    else
      match toks[0]
      case Valued(st, _, value) =>
        (match StoI(value)
         case None => BadNumber(value)
         case Some(n) => Apply(toks[1..], Set(c, st, n)))
      case Dangling(_) => Apply(toks[1..], c)
      case ForceV4 => Apply(toks[1..], c.(forceV4 := true))
      case ForceV6 => Apply(toks[1..], c.(forceV6 := true))
      case Help(_) => ShowHelp
      case Ignored(_) => Apply(toks[1..], c)
      case Bare(arg) => Apply(toks[1..], c.(host := arg))
  }

  /** The argument of the last Bare token, or `dflt` when there is none. */
  function LastBare(toks: seq<Token>, dflt: string): string {
    if |toks| == 0 then dflt
    else if toks[|toks| - 1].Bare? then toks[|toks| - 1].arg
    else LastBare(toks[..|toks| - 1], dflt)
  }

  /** The value of the last option that sets `st`, or `dflt` when there is none. */
  function LastSetting(toks: seq<Token>, st: Setting, dflt: int): int {
    if |toks| == 0 then dflt
    else
      var t := toks[|toks| - 1];
      if t.Valued? && t.setting == st && StoI(t.value).Some? then StoI(t.value).value
      else LastSetting(toks[..|toks| - 1], st, dflt)
  }

  lemma {:induction false} LastBareCons(t: Token, rest: seq<Token>, dflt: string)
    ensures LastBare([t] + rest, dflt) == LastBare(rest, if t.Bare? then t.arg else dflt)
    decreases |rest|
  {
    if |rest| > 0 {
      assert ([t] + rest)[..|rest|] == [t] + rest[..|rest| - 1];
      LastBareCons(t, rest[..|rest| - 1], dflt);
    }
  }

  lemma {:induction false} LastSettingCons(t: Token, rest: seq<Token>, st: Setting, dflt: int)
    ensures LastSetting([t] + rest, st, dflt) ==
      LastSetting(rest, st, if t.Valued? && t.setting == st && StoI(t.value).Some? then StoI(t.value).value else dflt)
    decreases |rest|
  {
    if |rest| > 0 {
      assert ([t] + rest)[..|rest|] == [t] + rest[..|rest| - 1];
      assert ([t] + rest)[|rest|] == rest[|rest| - 1];
      LastSettingCons(t, rest[..|rest| - 1], st, dflt);
    }
  }

  /** An accepted command line names a non-empty host: the last bare argument. */
  lemma {:induction false} HostIsLastBare(toks: seq<Token>, c: Config)
    requires Apply(toks, c).Ok?
    ensures Apply(toks, c).config.host == LastBare(toks, c.host) != ""
  {
    if |toks| > 0 {
      assert toks == [toks[0]] + toks[1..];
      LastBareCons(toks[0], toks[1..], c.host);
      match toks[0]
      case Valued(st, _, value) => HostIsLastBare(toks[1..], Set(c, st, StoI(value).value));
      case Dangling(_) => HostIsLastBare(toks[1..], c);
      case ForceV4 => HostIsLastBare(toks[1..], c.(forceV4 := true));
      case ForceV6 => HostIsLastBare(toks[1..], c.(forceV6 := true));
      case Ignored(_) => HostIsLastBare(toks[1..], c);
      case Bare(arg) => HostIsLastBare(toks[1..], c.(host := arg));
    }
  }

  /** Of several occurrences of a value option, the last one wins. */
  lemma {:induction false} LastValueWins(toks: seq<Token>, c: Config, st: Setting)
    requires Apply(toks, c).Ok?
    ensures Get(Apply(toks, c).config, st) == LastSetting(toks, st, Get(c, st))
  {
    if |toks| > 0 {
      assert toks == [toks[0]] + toks[1..];
      LastSettingCons(toks[0], toks[1..], st, Get(c, st));
      match toks[0]
      case Valued(st', _, value) => LastValueWins(toks[1..], Set(c, st', StoI(value).value), st);
      case Dangling(_) => LastValueWins(toks[1..], c, st);
      case ForceV4 => LastValueWins(toks[1..], c.(forceV4 := true), st);
      case ForceV6 => LastValueWins(toks[1..], c.(forceV6 := true), st);
      case Ignored(_) => LastValueWins(toks[1..], c, st);
      case Bare(arg) => LastValueWins(toks[1..], c.(host := arg), st);
    }
  }

  /** `-4` and `-6` only ever switch their flag on. */
  lemma {:induction false} ForceFlagsSet(toks: seq<Token>, c: Config)
    requires Apply(toks, c).Ok?
    ensures Apply(toks, c).config.forceV4 <==> c.forceV4 || exists k :: 0 <= k < |toks| && toks[k].ForceV4?
    ensures Apply(toks, c).config.forceV6 <==> c.forceV6 || exists k :: 0 <= k < |toks| && toks[k].ForceV6?
  {
    if |toks| > 0 {
      var rest := toks[1..];
      assert forall k :: 1 <= k < |toks| ==> toks[k] == rest[k - 1];
      match toks[0]
      case Valued(st, _, value) => ForceFlagsSet(rest, Set(c, st, StoI(value).value));
      case Dangling(_) => ForceFlagsSet(rest, c);
      case ForceV4 => ForceFlagsSet(rest, c.(forceV4 := true));
      case ForceV6 => ForceFlagsSet(rest, c.(forceV6 := true));
      case Ignored(_) => ForceFlagsSet(rest, c);
      case Bare(arg) => ForceFlagsSet(rest, c.(host := arg));
    }
  }

  /** Without a help option and with every value accepted by std::stoi, the
      command line is accepted exactly when its last bare argument is non-empty;
      otherwise it is rejected for the missing host. */
  lemma {:induction false} EmptyHostRejected(toks: seq<Token>, c: Config)
    requires forall k :: 0 <= k < |toks| ==> !toks[k].Help?
    requires forall k :: 0 <= k < |toks| && toks[k].Valued? ==> StoI(toks[k].value).Some?
    ensures Apply(toks, c).Ok? || Apply(toks, c) == MissingHost
    ensures Apply(toks, c).Ok? <==> LastBare(toks, c.host) != ""
  {
    if |toks| > 0 {
      var rest := toks[1..];
      assert toks == [toks[0]] + rest;
      assert forall k :: 0 <= k < |rest| ==> rest[k] == toks[k + 1];
      LastBareCons(toks[0], rest, c.host);
      match toks[0]
      case Valued(st, _, value) => EmptyHostRejected(rest, Set(c, st, StoI(value).value));
      case Dangling(_) => EmptyHostRejected(rest, c);
      case ForceV4 => EmptyHostRejected(rest, c.(forceV4 := true));
      case ForceV6 => EmptyHostRejected(rest, c.(forceV6 := true));
      case Ignored(_) => EmptyHostRejected(rest, c);
      case Bare(arg) => EmptyHostRejected(rest, c.(host := arg));
    }
  }

  /** A run that stops early was stopped by a help option or by a value std::stoi rejects. */
  lemma {:induction false} ExitsHaveCause(toks: seq<Token>, c: Config)
    ensures Apply(toks, c) == ShowHelp ==> exists k :: 0 <= k < |toks| && toks[k].Help?
    ensures Apply(toks, c).BadNumber? ==>
      exists k :: 0 <= k < |toks| && toks[k].Valued? && toks[k].value == Apply(toks, c).text && StoI(toks[k].value).None?
  {
    if |toks| > 0 {
      var rest := toks[1..];
      assert forall k :: 0 <= k < |rest| ==> rest[k] == toks[k + 1];
      match toks[0]
      case Valued(st, _, value) =>
        if StoI(value).Some? { ExitsHaveCause(rest, Set(c, st, StoI(value).value)); }
      case Dangling(_) => ExitsHaveCause(rest, c);
      case ForceV4 => ExitsHaveCause(rest, c.(forceV4 := true));
      case ForceV6 => ExitsHaveCause(rest, c.(forceV6 := true));
      case Help(_) =>
      case Ignored(_) => ExitsHaveCause(rest, c);
      case Bare(arg) => ExitsHaveCause(rest, c.(host := arg));
    }
  }

  /** One turn of the parseArgs loop on a value option followed by a value. */
  lemma StepValued(argv: seq<string>, i: nat, c: Config, st: Setting)
    requires i + 1 < |argv| && IsDashed(argv[i]) && SettingOf(argv[i]) == Some(st)
    ensures Apply(Tokenize(argv, i), c) ==
      match StoI(argv[i + 1])
      case None => BadNumber(argv[i + 1])
      case Some(n) => Apply(Tokenize(argv, i + 2), Set(c, st, n))
  {
  }

  /** One turn of the parseArgs loop on a value option that is the last argument. */
  lemma StepDangling(argv: seq<string>, i: nat, c: Config)
    requires i + 1 == |argv| && IsDashed(argv[i]) && SettingOf(argv[i]).Some?
    ensures Apply(Tokenize(argv, i), c) == Apply(Tokenize(argv, i + 1), c)
  {
  }

  /** One turn of the parseArgs loop on any argument that is not a value option. */
  lemma StepSingle(argv: seq<string>, i: nat, c: Config)
    requires i < |argv| && !(IsDashed(argv[i]) && SettingOf(argv[i]).Some?)
    ensures Apply(Tokenize(argv, i), c) ==
      var arg := argv[i];
      if !IsDashed(arg) then Apply(Tokenize(argv, i + 1), c.(host := arg))
      else if arg == "-4" then Apply(Tokenize(argv, i + 1), c.(forceV4 := true))
      else if arg == "-6" then Apply(Tokenize(argv, i + 1), c.(forceV6 := true))
      else if arg == "-h" || arg == "--help" then ShowHelp
      else Apply(Tokenize(argv, i + 1), c)
  {
  }

  /** `parseArgs(argc, argv)`; `argv[0]` is the program name and is skipped.
      The four value options differ only in the global they assign, so one
      branch handles them through `SettingOf` and `Set`. */
  method ParseArgs(argv: seq<string>) returns (r: Parsed)
    requires |argv| >= 1
    ensures r == Apply(Tokenize(argv, 1), Defaults)
  {
    var c := Defaults;
    var i := 1;
    while i < |argv|
      invariant 1 <= i <= |argv|
      invariant Apply(Tokenize(argv, i), c) == Apply(Tokenize(argv, 1), Defaults)
    {
      var arg := argv[i];
      if |arg| > 0 && arg[0] == '-' {
        var setting := SettingOf(arg);
        if setting.Some? {
          if i + 1 < |argv| {
            StepValued(argv, i, c, setting.value);
            i := i + 1;
            var n := StoI(argv[i]);
            if n.None? { return BadNumber(argv[i]); }
            c := Set(c, setting.value, n.value);
          } else {
            StepDangling(argv, i, c);
          }
        } else {
          StepSingle(argv, i, c);
          if arg == "-4" {
            c := c.(forceV4 := true);
          } else if arg == "-6" {
            c := c.(forceV6 := true);
          } else if arg == "-h" || arg == "--help" {
            return ShowHelp;
          }
        }
      } else {
        StepSingle(argv, i, c);
        c := c.(host := arg);
      }
      i := i + 1;
    }
    if c.host == "" {
      return MissingHost;
    }
    return Ok(c);
  }

  /** What `main` does before its loop. */
  datatype Launch =
    | NoArguments          // usage printed, main returns 0
    | Rejected(why: Parsed)
    | Start(config: Config)

  /** `main` up to the loop: usage when there is no argument after the program
      name, otherwise parseArgs. There is no -4/-6 conflict check. */
  method Configure(argv: seq<string>) returns (r: Launch)
    ensures r == NoArguments <==> |argv| < 2
    ensures r.Start? <==> |argv| >= 2 && Apply(Tokenize(argv, 1), Defaults).Ok?
    ensures r.Start? ==> |argv| >= 2 && Apply(Tokenize(argv, 1), Defaults) == Ok(r.config) && r.config.host != ""
    ensures r.Rejected? ==> |argv| >= 2 && r.why == Apply(Tokenize(argv, 1), Defaults) && !r.why.Ok?
  {
    if |argv| < 2 {
      return NoArguments;
    }
    var parsed := ParseArgs(argv);
    if !parsed.Ok? {
      return Rejected(parsed);
    }
    HostIsLastBare(Tokenize(argv, 1), Defaults);
    return Start(parsed.config);
  }
}
