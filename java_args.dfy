/**
 Command-line handling of the Java version: `parseArgs`, the integer
 conversion it relies on (`Integer.parseInt`) and the check in `main` that
 rejects `-4` together with `-6`.

 As for the C++ version, the reference definition splits the scan in two:
 `Tokenize` groups the arguments the way the loop consumes them, and `Apply`
 runs the tokens against the configuration. Unlike the C++ version, an
 unknown argument starting with '-' ends the program (exit 1), the host is
 `null` until a bare argument is seen (so an empty argument is a host), and
 the `"?"` label of the switch is never reached because "?" does not start
 with '-': it is taken as the host.
 */
module JavaArgs {
  import opened Options
  import opened Decimal

  datatype Config = Config(host: Option<string>, port: int, count: int, timeout: int, interval: int, forceV4: bool, forceV6: bool)

  /** The static fields' initial values; `count == -1` means "until interrupted". */
  const Defaults: Config := Config(None, 80, -1, 1000, 1000, false, false)

  /** The options that take a value. */
  datatype Setting = Port | Count | Timeout | Interval

  function Get(c: Config, st: Setting): int {
    match st
    case Port => c.port
    case Count => c.count
    case Timeout => c.timeout
    case Interval => c.interval
  }

  function Set(c: Config, st: Setting, n: int): (d: Config)
    ensures Get(d, st) == n
    ensures forall other :: other != st ==> Get(d, other) == Get(c, other)
    ensures d.host == c.host && d.forceV4 == c.forceV4 && d.forceV6 == c.forceV6
  {
    match st
    case Port => c.(port := n)
    case Count => c.(count := n)
    case Timeout => c.(timeout := n)
    case Interval => c.(interval := n)
  }

  function SettingOf(arg: string): Option<Setting> {
    if arg == "-p" || arg == "--port" then Some(Port)
    else if arg == "-c" || arg == "--count" then Some(Count)
    else if arg == "-t" || arg == "--timeout" then Some(Timeout)
    else if arg == "--interval" then Some(Interval)
    else None
  }

  // ---------------------------------------------------------------- Integer.parseInt

  /** `Integer.parseInt(s)`: an optional sign and then only decimal digits, with a
      value that fits in an int; `None` stands for the NumberFormatException. */
  function ParseInt(s: string): (r: Option<int>)
    ensures r.Some? ==> IntMin <= r.value <= IntMax
    ensures r.Some? ==> |s| > 0 && (r.value < 0 ==> s[0] == '-')
  {
    if |s| == 0 then None
    else
      var signed := s[0] == '-' || s[0] == '+';
      var digits := if signed then s[1..] else s;
      if |digits| == 0 || !AllDigits(digits) then None
      else
        var v: int := if s[0] == '-' then -(Value(digits) as int) else Value(digits);
        if IntMin <= v <= IntMax then Some(v) else None
  }

  /** `Integer.parseInt` reads back the rendering of any number in the int range
      and rejects every number outside it. */
  lemma ParseIntReadsRendering(n: int)
    ensures ParseInt(ShowInt(n)) == if IntMin <= n <= IntMax then Some(n) else None
  {
    var s := ShowInt(n);
    if n < 0 {
      assert s[1..] == Show(-n);
      ValueOfShow(-n);
    } else {
      ValueOfShow(n);
    }
  }

  /** Only a sign followed by digits, or digits alone, are accepted: no white
      space and nothing after the digits. */
  lemma ParseIntIsStrict(s: string)
    requires ParseInt(s).Some?
    ensures |s| > 0 && forall k :: 1 <= k < |s| ==> IsDigit(s[k])
    ensures IsDigit(s[0]) || ((s[0] == '-' || s[0] == '+') && |s| >= 2)
  {
    var digits := if s[0] == '-' || s[0] == '+' then s[1..] else s;
    assert forall k :: 1 <= k < |s| ==> s[k] == digits[k - (|s| - |digits|)];
  }

  // ---------------------------------------------------------------- tokens

  /** How the loop of parseArgs consumes the arguments. */
  datatype Token =
    | Valued(setting: Setting, option: string, value: string)  // a value option and the argument after it
    | Dangling(option: string)                                  // a value option with nothing after it: ignored
    | ForceV4
    | ForceV6
    | Help(option: string)
    | Unknown(arg: string)                                      // any other argument starting with '-'
    | Bare(arg: string)                                         // any argument not starting with '-': the host

  /** The arguments a token was made from. */
  function Text(t: Token): seq<string> {
    match t
    case Valued(_, option, value) => [option, value]
    case Dangling(option) => [option]
    case ForceV4 => ["-4"]
    case ForceV6 => ["-6"]
    case Help(option) => [option]
    case Unknown(arg) => [arg]
    case Bare(arg) => [arg]
  }

  function Flatten(ts: seq<Token>): seq<string> {
    if |ts| == 0 then [] else Text(ts[0]) + Flatten(ts[1..])
  }

  /** The argument starts with '-'; an empty argument does not. */
  predicate IsDashed(arg: string) {
    |arg| > 0 && arg[0] == '-'
  }

  function Tokenize(args: seq<string>, i: nat): seq<Token>
    requires i <= |args|
    decreases |args| - i
  {
    if i == |args| then []
    else
      var arg := args[i];
      if !IsDashed(arg) then [Bare(arg)] + Tokenize(args, i + 1)
      else if SettingOf(arg).Some? then
        if i + 1 < |args| then [Valued(SettingOf(arg).value, arg, args[i + 1])] + Tokenize(args, i + 2)
        else [Dangling(arg)]
      else if arg == "-4" then [ForceV4] + Tokenize(args, i + 1)
      else if arg == "-6" then [ForceV6] + Tokenize(args, i + 1)
      else if arg == "-h" || arg == "--help" then [Help(arg)] + Tokenize(args, i + 1)
      else [Unknown(arg)] + Tokenize(args, i + 1)
  }

  lemma FlattenCons(t: Token, ts: seq<Token>)
    ensures Flatten([t] + ts) == Text(t) + Flatten(ts)
  {
    assert ([t] + ts)[1..] == ts;
  }

  /** One step of the scan: the first token is made of the next `w` arguments
      and the tokens of the rest follow it; a dangling option is the last argument. */
  lemma TokenizeHead(args: seq<string>, i: nat) returns (w: nat)
    requires i < |args|
    ensures 1 <= w && i + w <= |args|
    ensures Tokenize(args, i) == [Tokenize(args, i)[0]] + Tokenize(args, i + w)
    ensures Text(Tokenize(args, i)[0]) == args[i..i + w]
    ensures Tokenize(args, i)[0].Dangling? ==> i + 1 == |args| && Tokenize(args, i)[0].option == args[i]
  {
    var arg := args[i];
    w := if IsDashed(arg) && SettingOf(arg).Some? && i + 1 < |args| then 2 else 1;
    assert args[i..i + w] == if w == 2 then [arg, args[i + 1]] else [arg];
  }

  lemma SplitArguments(s: seq<string>, a: nat, b: nat)
    requires a <= b <= |s|
    ensures s[a..] == s[a..b] + s[b..]
  {
  }

  /** Tokenizing loses and invents nothing: the tokens spell out the arguments. */
  lemma {:induction false} TokensSpellArguments(args: seq<string>, i: nat)
    requires i <= |args|
    ensures Flatten(Tokenize(args, i)) == args[i..]
    decreases |args| - i
  {
    if i < |args| {
      var w := TokenizeHead(args, i);
      var head, rest := Tokenize(args, i)[0], Tokenize(args, i + w);
      calc {
        Flatten(Tokenize(args, i));
        Flatten([head] + rest);
        { FlattenCons(head, rest); }
        Text(head) + Flatten(rest);
        { TokensSpellArguments(args, i + w); }
        args[i..i + w] + args[i + w..];
        { SplitArguments(args, i, i + w); }
        args[i..];
      }
    }
  }

  /** A value option is ignored only when it is the very last argument. */
  lemma {:induction false} OnlyLastOptionDangles(args: seq<string>, i: nat, k: nat)
    requires i <= |args|
    requires k < |Tokenize(args, i)| && Tokenize(args, i)[k].Dangling?
    ensures k == |Tokenize(args, i)| - 1 && Tokenize(args, i)[k].option == args[|args| - 1]
    decreases |args| - i
  {
    var w := TokenizeHead(args, i);
    if k > 0 {
      OnlyLastOptionDangles(args, i + w, k - 1);
    }
  }


  /** "?" is taken as the host: the `case "?"` of the switch is unreachable. */
  lemma QuestionMarkIsBare(args: seq<string>, i: nat)
    requires i < |args| && args[i] == "?"
    ensures Tokenize(args, i)[0] == Bare("?")
  {
  }

  // ---------------------------------------------------------------- interpretation

  datatype Parsed =
    | Ok(config: Config)
    | ShowHelp                  // usage printed, exit status 0
    | BadNumber(text: string)   // Integer.parseInt threw: the program ends
    | UnknownArgument(arg: string)  // unknown option: exit status 1
    | MissingHost               // no host given: exit status 1

  /** The effect of the tokens, in order, on the configuration. */
  function Apply(toks: seq<Token>, c: Config): Parsed {
    if |toks| == 0 then
      if c.host.None? then MissingHost else Ok(c)
    else
      match toks[0]
      case Valued(st, _, value) =>
        (match ParseInt(value)
         case None => BadNumber(value)
         case Some(n) => Apply(toks[1..], Set(c, st, n)))
      case Dangling(_) => Apply(toks[1..], c)
      case ForceV4 => Apply(toks[1..], c.(forceV4 := true))
      case ForceV6 => Apply(toks[1..], c.(forceV6 := true))
      case Help(_) => ShowHelp
      case Unknown(arg) => UnknownArgument(arg)
      case Bare(arg) => Apply(toks[1..], c.(host := Some(arg)))
  }

  /** The argument of the last Bare token, or `dflt` when there is none. */
  function LastBare(toks: seq<Token>, dflt: Option<string>): Option<string> {
    if |toks| == 0 then dflt
    else if toks[|toks| - 1].Bare? then Some(toks[|toks| - 1].arg)
    else LastBare(toks[..|toks| - 1], dflt)
  }

  /** The value of the last option that sets `st`, or `dflt` when there is none. */
  function LastSetting(toks: seq<Token>, st: Setting, dflt: int): int {
    if |toks| == 0 then dflt
    else
      var t := toks[|toks| - 1];
      if t.Valued? && t.setting == st && ParseInt(t.value).Some? then ParseInt(t.value).value
      else LastSetting(toks[..|toks| - 1], st, dflt)
  }

  lemma {:induction false} LastSettingCons(t: Token, rest: seq<Token>, st: Setting, dflt: int)
    ensures LastSetting([t] + rest, st, dflt) ==
      LastSetting(rest, st, if t.Valued? && t.setting == st && ParseInt(t.value).Some? then ParseInt(t.value).value else dflt)
    decreases |rest|
  {
    if |rest| > 0 {
      assert ([t] + rest)[..|rest|] == [t] + rest[..|rest| - 1];
      assert ([t] + rest)[|rest|] == rest[|rest| - 1];
      LastSettingCons(t, rest[..|rest| - 1], st, dflt);
    }
  }

  lemma {:induction false} LastBareCons(t: Token, rest: seq<Token>, dflt: Option<string>)
    ensures LastBare([t] + rest, dflt) == LastBare(rest, if t.Bare? then Some(t.arg) else dflt)
    decreases |rest|
  {
    if |rest| > 0 {
      assert ([t] + rest)[..|rest|] == [t] + rest[..|rest| - 1];
      LastBareCons(t, rest[..|rest| - 1], dflt);
    }
  }

  /** An accepted command line names a host: the last bare argument, the last one winning. */
  lemma {:induction false} HostIsLastBare(toks: seq<Token>, c: Config)
    requires Apply(toks, c).Ok?
    ensures Apply(toks, c).config.host == LastBare(toks, c.host) && LastBare(toks, c.host).Some?
  {
    if |toks| > 0 {
      assert toks == [toks[0]] + toks[1..];
      LastBareCons(toks[0], toks[1..], c.host);
      match toks[0]
      case Valued(st, _, value) => HostIsLastBare(toks[1..], Set(c, st, ParseInt(value).value));
      case Dangling(_) => HostIsLastBare(toks[1..], c);
      case ForceV4 => HostIsLastBare(toks[1..], c.(forceV4 := true));
      case ForceV6 => HostIsLastBare(toks[1..], c.(forceV6 := true));
      case Bare(arg) => HostIsLastBare(toks[1..], c.(host := Some(arg)));
    }
  }

  /** Of several occurrences of a value option, the last one wins. */
  lemma {:induction false} LastValueWins(toks: seq<Token>, c: Config, st: Setting)
    requires Apply(toks, c).Ok?
    ensures Get(Apply(toks, c).config, st) == LastSetting(toks, st, Get(c, st))
  {
    if |toks| > 0 {
      assert toks == [toks[0]] + toks[1..];
      LastSettingCons(toks[0], toks[1..], st, Get(c, st));
      match toks[0]
      case Valued(st', _, value) => LastValueWins(toks[1..], Set(c, st', ParseInt(value).value), st);
      case Dangling(_) => LastValueWins(toks[1..], c, st);
      case ForceV4 => LastValueWins(toks[1..], c.(forceV4 := true), st);
      case ForceV6 => LastValueWins(toks[1..], c.(forceV6 := true), st);
      case Bare(arg) => LastValueWins(toks[1..], c.(host := Some(arg)), st);
    }
  }

  /** An accepted command line has no unknown dash argument and no help option;
      a rejected one was rejected for one of its own arguments or for the missing host. */
  lemma {:induction false} RejectionCause(toks: seq<Token>, c: Config)
    ensures Apply(toks, c).Ok? ==> forall k :: 0 <= k < |toks| ==> !toks[k].Unknown? && !toks[k].Help?
    ensures Apply(toks, c).UnknownArgument? ==> exists k :: 0 <= k < |toks| && toks[k] == Unknown(Apply(toks, c).arg)
    ensures Apply(toks, c) == ShowHelp ==> exists k :: 0 <= k < |toks| && toks[k].Help?
    ensures Apply(toks, c).BadNumber? ==>
      exists k :: 0 <= k < |toks| && toks[k].Valued? && toks[k].value == Apply(toks, c).text && ParseInt(toks[k].value).None?
    ensures Apply(toks, c) == MissingHost ==> LastBare(toks, c.host).None?
  {
    if |toks| > 0 {
      var rest := toks[1..];
      assert toks == [toks[0]] + rest;
      assert forall k :: 0 <= k < |rest| ==> rest[k] == toks[k + 1];
      LastBareCons(toks[0], rest, c.host);
      match toks[0]
      case Valued(st, _, value) =>
        if ParseInt(value).Some? { RejectionCause(rest, Set(c, st, ParseInt(value).value)); }
      case Dangling(_) => RejectionCause(rest, c);
      case ForceV4 => RejectionCause(rest, c.(forceV4 := true));
      case ForceV6 => RejectionCause(rest, c.(forceV6 := true));
      case Help(_) =>
      case Unknown(_) =>
      case Bare(arg) => RejectionCause(rest, c.(host := Some(arg)));
    }
  }

  /** `-4` and `-6` only ever switch their flag on. */
  lemma {:induction false} ForceFlagsSet(toks: seq<Token>, c: Config)
    requires Apply(toks, c).Ok?
    ensures Apply(toks, c).config.forceV4 <==> c.forceV4 || exists k :: 0 <= k < |toks| && toks[k].ForceV4?
    ensures Apply(toks, c).config.forceV6 <==> c.forceV6 || exists k :: 0 <= k < |toks| && toks[k].ForceV6?
  {
    if |toks| > 0 {
      var rest := toks[1..];
      assert forall k :: 1 <= k < |toks| ==> toks[k] == rest[k - 1];
      match toks[0]
      case Valued(st, _, value) => ForceFlagsSet(rest, Set(c, st, ParseInt(value).value));
      case Dangling(_) => ForceFlagsSet(rest, c);
      case ForceV4 => ForceFlagsSet(rest, c.(forceV4 := true));
      case ForceV6 => ForceFlagsSet(rest, c.(forceV6 := true));
      case Bare(arg) => ForceFlagsSet(rest, c.(host := Some(arg)));
    }
  }

  /** One turn of the parseArgs loop on a value option followed by a value. */
  lemma StepValued(args: seq<string>, i: nat, c: Config, st: Setting)
    requires i + 1 < |args| && IsDashed(args[i]) && SettingOf(args[i]) == Some(st)
    ensures Apply(Tokenize(args, i), c) ==
      match ParseInt(args[i + 1])
      case None => BadNumber(args[i + 1])
      case Some(n) => Apply(Tokenize(args, i + 2), Set(c, st, n))
  {
  }

  /** One turn of the parseArgs loop on a value option that is the last argument. */
  lemma StepDangling(args: seq<string>, i: nat, c: Config)
    requires i + 1 == |args| && IsDashed(args[i]) && SettingOf(args[i]).Some?
    ensures Apply(Tokenize(args, i), c) == Apply(Tokenize(args, i + 1), c)
  {
  }

  /** One turn of the parseArgs loop on any argument that is not a value option. */
  lemma StepSingle(args: seq<string>, i: nat, c: Config)
    requires i < |args| && !(IsDashed(args[i]) && SettingOf(args[i]).Some?)
    ensures Apply(Tokenize(args, i), c) ==
      var arg := args[i];
      if !IsDashed(arg) then Apply(Tokenize(args, i + 1), c.(host := Some(arg)))
      else if arg == "-4" then Apply(Tokenize(args, i + 1), c.(forceV4 := true))
      else if arg == "-6" then Apply(Tokenize(args, i + 1), c.(forceV6 := true))
      else if arg == "-h" || arg == "--help" then ShowHelp
      else UnknownArgument(arg)
  {
  }

  /** `parseArgs(args)`. The four value options differ only in the field they
      assign, so one branch handles them through `SettingOf` and `Set`. */
  method ParseArgs(args: seq<string>) returns (r: Parsed)
    ensures r == Apply(Tokenize(args, 0), Defaults)
  {
    var c := Defaults;
    var i := 0;
    while i < |args|
      invariant 0 <= i <= |args|
      invariant Apply(Tokenize(args, i), c) == Apply(Tokenize(args, 0), Defaults)
    {
      var arg := args[i];
      if |arg| > 0 && arg[0] == '-' {
        var setting := SettingOf(arg);
        if setting.Some? {
          if i + 1 < |args| {
            StepValued(args, i, c, setting.value);
            i := i + 1;
            var n := ParseInt(args[i]);
            if n.None? { return BadNumber(args[i]); }
            c := Set(c, setting.value, n.value);
          } else {
            StepDangling(args, i, c);
          }
        } else {
          StepSingle(args, i, c);
          if arg == "-4" {
            c := c.(forceV4 := true);
          } else if arg == "-6" {
            c := c.(forceV6 := true);
          } else if arg == "-h" || arg == "--help" {
            return ShowHelp;
          } else {
            return UnknownArgument(arg);
          }
        }
      } else {
        StepSingle(args, i, c);
        c := c.(host := Some(arg));
      }
      i := i + 1;
    }
    if c.host.None? {
      return MissingHost;
    }
    return Ok(c);
  }

  /** What `main` does before its loop. */
  datatype Launch =
    | NoArguments          // usage printed, main returns
    | Rejected(why: Parsed)
    | BothFamilies         // -4 together with -6: exit status 1
    | Start(config: Config)

  /** `main` up to the loop: usage without arguments, parseArgs, then the -4/-6 conflict check. */
  method Configure(args: seq<string>) returns (r: Launch)
    ensures r == NoArguments <==> |args| == 0
    ensures r.Start? ==> Apply(Tokenize(args, 0), Defaults) == Ok(r.config)
    ensures r.Start? ==> r.config.host.Some? && !(r.config.forceV4 && r.config.forceV6)
    ensures r == BothFamilies <==>
      |args| > 0 && Apply(Tokenize(args, 0), Defaults).Ok? &&
      Apply(Tokenize(args, 0), Defaults).config.forceV4 && Apply(Tokenize(args, 0), Defaults).config.forceV6
    ensures r.Rejected? <==> |args| > 0 && !Apply(Tokenize(args, 0), Defaults).Ok?
  {
    if |args| == 0 {
      return NoArguments;
    }
    var parsed := ParseArgs(args);
    if !parsed.Ok? {
      return Rejected(parsed);
    }
    HostIsLastBare(Tokenize(args, 0), Defaults);
    if parsed.config.forceV4 && parsed.config.forceV6 {
      return BothFamilies;
    }
    return Start(parsed.config);
  }
}
