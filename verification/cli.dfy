/**
 * The command-line parser: a left-to-right walk over the arguments that
 * recognises subcommands, switches and flags taking a value. Tokens are
 * trimmed before they are matched; the values after flags are kept as given.
 */
module Cli {
  import opened Wrappers

  datatype Subcommand = Envs | Cache | Help | Version | GuiTest

  /** The parsed command line. Paths are kept as the strings they were given as. */
  datatype Cli = Cli(
    preview: bool,
    noLog: bool,
    tty: Option<nat>,
    config: Option<string>,
    variables: Option<string>,
    command: Option<Subcommand>,
    xsessions: Option<string>,
    wlsessions: Option<string>,
    initialPath: Option<string>)

  datatype CliError = MissingArgument(flag: string) | InvalidTTY | InvalidArgument(arg: string)

  const Default: Cli := Cli(false, false, None, None, None, None, None, None, None)

  /** The highest terminal number accepted on the command line. */
  const MAX_TTY: nat := 12

  // ---------------------------------------------------------------------------
  // Trimming
  // ---------------------------------------------------------------------------

  /** The characters with the Unicode White_Space property. */
  predicate IsWhitespace(c: char) {
    ('\U{9}' <= c <= '\U{D}') || c == ' ' || c == '\U{85}' || c == '\U{A0}' || c == '\U{1680}'
    || ('\U{2000}' <= c <= '\U{200A}') || c == '\U{2028}' || c == '\U{2029}' || c == '\U{202F}'
    || c == '\U{205F}' || c == '\U{3000}'
  }

  /** The number of leading whitespace characters. */
  function LeadingSpace(s: string): (n: nat)
    ensures n <= |s|
    ensures forall i :: 0 <= i < n ==> IsWhitespace(s[i])
    ensures n < |s| ==> !IsWhitespace(s[n])
  {
    if s == [] || !IsWhitespace(s[0]) then 0 else 1 + LeadingSpace(s[1..])
  }

  /** The number of trailing whitespace characters. */
  function TrailingSpace(s: string): (n: nat)
    ensures n <= |s|
    ensures forall i :: |s| - n <= i < |s| ==> IsWhitespace(s[i])
    ensures n < |s| ==> !IsWhitespace(s[|s| - n - 1])
  {
    if s == [] || !IsWhitespace(s[|s| - 1]) then 0 else 1 + TrailingSpace(s[..|s| - 1])
  }

  /** The string without leading and trailing whitespace. */
  function Trim(s: string): (t: string)
    ensures |t| <= |s|
    ensures t != [] ==> !IsWhitespace(t[0]) && !IsWhitespace(t[|t| - 1])
  {
    var rest := s[LeadingSpace(s)..];
    rest[..|rest| - TrailingSpace(rest)]
  }

  /** Trimming removes only whitespace, from both ends. */
  lemma TrimDropsWhitespace(s: string)
    ensures exists i, j :: (0 <= i <= j <= |s| && Trim(s) == s[i..j]
                            && (forall k :: 0 <= k < i ==> IsWhitespace(s[k]))
                            && (forall k :: j <= k < |s| ==> IsWhitespace(s[k])))
  {
    var i := LeadingSpace(s);
    var rest := s[i..];
    var n := TrailingSpace(rest);
    var j := |s| - n;
    assert Trim(s) == s[i..j] by {
      assert rest[..|rest| - n] == s[i..j];
    }
    forall k | j <= k < |s|
      ensures IsWhitespace(s[k])
    {
      assert s[k] == rest[k - i];
    }
  }

  /** A string that neither starts nor ends with whitespace is its own trim. */
  lemma TrimIdentity(s: string)
    requires s == [] || (!IsWhitespace(s[0]) && !IsWhitespace(s[|s| - 1]))
    ensures Trim(s) == s
  {
    assert LeadingSpace(s) == 0;
    assert TrailingSpace(s) == 0;
  }

  // ---------------------------------------------------------------------------
  // Terminal numbers
  // ---------------------------------------------------------------------------

  predicate IsDigit(c: char) {
    '0' <= c <= '9'
  }

  function DigitsValue(s: string): (n: nat)
    requires forall i :: 0 <= i < |s| ==> IsDigit(s[i])
  {
    if s == [] then 0
    else
      assert IsDigit(s[|s| - 1]);
      10 * DigitsValue(s[..|s| - 1]) + (s[|s| - 1] as nat - '0' as nat)
  }

  /**
   * Parses an 8-bit unsigned number: an optional '+', then at least one
   * decimal digit, and a value of at most 255. Whitespace is not skipped.
   */
  function ParseU8(s: string): (r: Option<nat>)
    ensures r.Some? <==>
      var d := if |s| > 0 && s[0] == '+' then s[1..] else s;
      |d| > 0 && (forall i :: 0 <= i < |d| ==> IsDigit(d[i])) && DigitsValue(d) <= 255
    ensures r.Some? ==> r.value <= 255
    ensures r.Some? ==> r.value == DigitsValue(if s[0] == '+' then s[1..] else s)
  {
    var d := if |s| > 0 && s[0] == '+' then s[1..] else s;
    if |d| > 0 && (forall i :: 0 <= i < |d| ==> IsDigit(d[i])) && DigitsValue(d) <= 255 then Some(DigitsValue(d))
    else None
  }

  /** The decimal spelling of a number, without leading zeros. */
  function Decimal(n: nat): (s: string)
    ensures |s| > 0 && forall i :: 0 <= i < |s| ==> IsDigit(s[i])
    ensures s[0] != '+'
  {
    if n < 10 then ['0' + n as char] else Decimal(n / 10) + ['0' + (n % 10) as char]
  }

  lemma {:induction false} DecimalValue(n: nat)
    ensures DigitsValue(Decimal(n)) == n
  {
    if n >= 10 {
      var s := Decimal(n);
      assert s[..|s| - 1] == Decimal(n / 10);
      DecimalValue(n / 10);
    }
  }

  /** Every 8-bit number reads back from its decimal spelling. */
  lemma ParseU8OfDecimal(n: nat)
    requires n <= 255
    ensures ParseU8(Decimal(n)) == Some(n)
  {
    DecimalValue(n);
  }

  // ---------------------------------------------------------------------------
  // The token walk
  // ---------------------------------------------------------------------------

  datatype ValueFlag = TtyFlag | ConfigFlag | XsessionsFlag | WlsessionsFlag | VariablesFlag | InitialPathFlag

  datatype TokenKind = Sub(command: Subcommand) | PreviewSwitch | NoLogSwitch | Takes(flag: ValueFlag) | Unknown

  /** What a trimmed token means. */
  function Classify(t: string): TokenKind {
    if t == "envs" then Sub(Envs)
    else if t == "cache" then Sub(Cache)
    else if t == "help" || t == "--help" || t == "-h" then Sub(Help)
    else if t == "--version" || t == "-V" then Sub(Version)
    else if t == "gui-test" then Sub(GuiTest)
    else if t == "--preview" then PreviewSwitch
    else if t == "--no-log" then NoLogSwitch
    else if t == "--tty" then Takes(TtyFlag)
    else if t == "--config" || t == "-c" then Takes(ConfigFlag)
    else if t == "--xsessions" then Takes(XsessionsFlag)
    else if t == "--wlsessions" then Takes(WlsessionsFlag)
    else if t == "--variables" || t == "-v" then Takes(VariablesFlag)
    else if t == "--initial-path" then Takes(InitialPathFlag)
    else Unknown
  }

  /** The name reported when a flag's value is missing. */
  function FlagName(f: ValueFlag): string {
    match f
    case TtyFlag => "tty"
    case ConfigFlag => "config"
    case XsessionsFlag => "xsessions"
    case WlsessionsFlag => "wlsessions"
    case VariablesFlag => "variables"
    case InitialPathFlag => "initial-path"
  }

  /** Stores a flag's value; a terminal number outside 1..12 is refused. */
  function SetValue(cli: Cli, f: ValueFlag, v: string): (r: Result<Cli, CliError>)
    ensures f == TtyFlag ==>
      (r.Ok? <==> ParseU8(v).Some? && 1 <= ParseU8(v).value <= MAX_TTY)
      && (r.Ok? ==> r.value == cli.(tty := ParseU8(v)))
      && (r.Err? ==> r.error == InvalidTTY)
    ensures f != TtyFlag ==> r.Ok?
    ensures f == ConfigFlag ==> r == Ok(cli.(config := Some(v)))
    ensures f == XsessionsFlag ==> r == Ok(cli.(xsessions := Some(v)))
    ensures f == WlsessionsFlag ==> r == Ok(cli.(wlsessions := Some(v)))
    ensures f == VariablesFlag ==> r == Ok(cli.(variables := Some(v)))
    ensures f == InitialPathFlag ==> r == Ok(cli.(initialPath := Some(v)))
  {
    match f
    case TtyFlag =>
      (match ParseU8(v)
       case None => Err(InvalidTTY)
       case Some(n) => if n == 0 || n > MAX_TTY then Err(InvalidTTY) else Ok(cli.(tty := Some(n))))
    case ConfigFlag => Ok(cli.(config := Some(v)))
    case XsessionsFlag => Ok(cli.(xsessions := Some(v)))
    case WlsessionsFlag => Ok(cli.(wlsessions := Some(v)))
    case VariablesFlag => Ok(cli.(variables := Some(v)))
    case InitialPathFlag => Ok(cli.(initialPath := Some(v)))
  }

  /** The result of handling one token: the updated command line and how many arguments were used, or an error. */
  datatype StepResult = Continue(cli: Cli, used: nat) | Stop(error: CliError)

  /** Handles the trimmed token `t`, with `next` the argument after it, if any. */
  function StepToken(t: string, next: Option<string>, cli: Cli): (r: StepResult)
    ensures r.Continue? ==> (r.used == 2 <==> Classify(t).Takes?) && (r.used == 1 <==> !Classify(t).Takes?)
    ensures r.Continue? && r.used == 2 ==> next.Some?
    ensures Classify(t) == Unknown ==> r == Stop(InvalidArgument(t))
    ensures Classify(t).Takes? && next.None? ==> r == Stop(MissingArgument(FlagName(Classify(t).flag)))
  {
    match Classify(t)
    case Sub(c) => Continue(cli.(command := Some(c)), 1)
    case PreviewSwitch => Continue(cli.(preview := true), 1)
    case NoLogSwitch => Continue(cli.(noLog := true), 1)
    case Takes(f) =>
      if next.None? then Stop(MissingArgument(FlagName(f)))
      else
        (match SetValue(cli, f, next.value)
         case Err(e) => Stop(e)
         case Ok(c) => Continue(c, 2))
    case Unknown => Stop(InvalidArgument(t))
  }

  /** A token that takes no value is handled the same whatever follows it. */
  lemma StepIgnoresNext(t: string, n1: Option<string>, n2: Option<string>, cli: Cli)
    requires !Classify(t).Takes?
    ensures StepToken(t, n1, cli) == StepToken(t, n2, cli)
  {
  }

  function NextArg(args: seq<string>): Option<string> {
    if |args| >= 2 then Some(args[1]) else None
  }

  /** Walks the arguments from `cli`, stopping at the first error. */
  function ParseFrom(args: seq<string>, cli: Cli): (r: Result<Cli, CliError>)
    decreases |args|
  {
    if args == [] then Ok(cli)
    else
      match StepToken(Trim(args[0]), NextArg(args), cli)
      case Stop(e) => Err(e)
      case Continue(c, used) => ParseFrom(args[used..], c)
  }

  /** Parses the arguments after the program name. */
  function ParseArgs(args: seq<string>): (r: Result<Cli, CliError>)
    ensures args == [] ==> r == Ok(Default)
    ensures r.Ok? ==> r.value.tty.None? || 1 <= r.value.tty.value <= MAX_TTY
    ensures r.Err? && r.error.MissingArgument? ==>
      r.error.flag in {"tty", "config", "xsessions", "wlsessions", "variables", "initial-path"}
  {
    TtyBounded(args, Default);
    MissingNames(args, Default);
    ParseFrom(args, Default)
  }

  lemma {:induction false} TtyBounded(args: seq<string>, cli: Cli)
    requires cli.tty.None? || 1 <= cli.tty.value <= MAX_TTY
    ensures var r := ParseFrom(args, cli); r.Ok? ==> r.value.tty.None? || 1 <= r.value.tty.value <= MAX_TTY
    decreases |args|
  {
    if args != [] {
      var step := StepToken(Trim(args[0]), NextArg(args), cli);
      if step.Continue? {
        TtyBounded(args[step.used..], step.cli);
      }
    }
  }

  lemma {:induction false} MissingNames(args: seq<string>, cli: Cli)
    ensures var r := ParseFrom(args, cli);
      r.Err? && r.error.MissingArgument? ==>
        r.error.flag in {"tty", "config", "xsessions", "wlsessions", "variables", "initial-path"}
    decreases |args|
  {
    if args != [] {
      var step := StepToken(Trim(args[0]), NextArg(args), cli);
      if step.Continue? {
        MissingNames(args[step.used..], step.cli);
      }
    }
  }

  /** A token that is not recognised after trimming is reported, trimmed. */
  lemma UnknownTokenRejected(first: string, rest: seq<string>)
    requires Classify(Trim(first)) == Unknown
    ensures ParseArgs([first] + rest) == Err(InvalidArgument(Trim(first)))
  {
    assert ([first] + rest)[0] == first;
  }

  /** A value-taking flag as the last argument reports its own name. */
  lemma TrailingFlagMissing(args: seq<string>, flag: string, f: ValueFlag)
    requires ParseArgs(args).Ok? && Classify(Trim(flag)) == Takes(f)
    ensures ParseArgs(args + [flag]) == Err(MissingArgument(FlagName(f)))
  {
    ParseConcat(args, [flag], Default);
    assert ParseFrom([flag], ParseArgs(args).value) == Err(MissingArgument(FlagName(f)));
  }

  /** A subcommand given last wins over any given before it, whatever the flags around them. */
  lemma LaterSubcommandWins(args: seq<string>, c: string, s: Subcommand)
    requires ParseArgs(args).Ok? && Classify(Trim(c)) == Sub(s)
    ensures ParseArgs(args + [c]) == Ok(ParseArgs(args).value.(command := Some(s)))
  {
    ParseConcat(args, [c], Default);
    assert ParseFrom([c], ParseArgs(args).value) == ParseFrom([], ParseArgs(args).value.(command := Some(s)));
  }

  // ---------------------------------------------------------------------------
  // Rendering a command line back into arguments
  // ---------------------------------------------------------------------------

  function SubcommandToken(c: Subcommand): string {
    match c
    case Envs => "envs"
    case Cache => "cache"
    case Help => "help"
    case Version => "--version"
    case GuiTest => "gui-test"
  }

  function Pair(flag: string, v: Option<string>): seq<string> {
    if v.Some? then [flag, v.value] else []
  }

  function Flag(on: bool, token: string): seq<string> {
    if on then [token] else []
  }

  function TtyArgs(tty: Option<nat>): seq<string>
    requires tty.None? || tty.value <= 255
  {
    if tty.Some? then ["--tty", Decimal(tty.value)] else []
  }

  function CommandArgs(c: Option<Subcommand>): seq<string> {
    if c.Some? then [SubcommandToken(c.value)] else []
  }

  /** Arguments that describe `cli`: the switches, the flags with their values, then the subcommand. */
  function Render(cli: Cli): seq<string>
    requires cli.tty.None? || cli.tty.value <= 255
  {
    Flag(cli.preview, "--preview")
    + (Flag(cli.noLog, "--no-log")
    + (TtyArgs(cli.tty)
    + (Pair("--config", cli.config)
    + (Pair("--variables", cli.variables)
    + (Pair("--xsessions", cli.xsessions)
    + (Pair("--wlsessions", cli.wlsessions)
    + (Pair("--initial-path", cli.initialPath)
    + CommandArgs(cli.command))))))))
  }

  /** Parsing distributes over concatenation at token boundaries. */
  lemma DropConcat<T>(a: seq<T>, b: seq<T>, u: nat)
    requires u <= |a|
    ensures (a + b)[u..] == a[u..] + b
  {
  }

  lemma {:induction false} ParseConcat(a: seq<string>, b: seq<string>, cli: Cli)
    requires ParseFrom(a, cli).Ok?
    ensures ParseFrom(a + b, cli) == ParseFrom(b, ParseFrom(a, cli).value)
    decreases |a|
  {
    if a == [] {
      assert a + b == b;
    } else {
      var ab := a + b;
      assert ab[0] == a[0];
      var t := Trim(a[0]);
      var step := StepToken(t, NextArg(a), cli);
      assert step.Continue?;
      if Classify(t).Takes? {
        assert ab[1] == a[1];
      } else {
        StepIgnoresNext(t, NextArg(a), NextArg(ab), cli);
      }
      assert step.used <= |a|;
      DropConcat(a, b, step.used);
      ParseConcat(a[step.used..], b, step.cli);
    }
  }

  /** One flag and its value, parsed on their own. */
  lemma PairParses(flag: string, f: ValueFlag, v: Option<string>, cli: Cli)
    requires Trim(flag) == flag && Classify(flag) == Takes(f) && f != TtyFlag
    ensures ParseFrom(Pair(flag, v), cli) == Ok(if v.None? then cli else SetValue(cli, f, v.value).value)
  {
    if v.Some? {
      assert Pair(flag, v)[2..] == [];
    }
  }

  lemma FlagParses(on: bool, token: string, cli: Cli, expected: Cli)
    requires Trim(token) == token
    requires Classify(token) == PreviewSwitch || Classify(token) == NoLogSwitch
    requires on && Classify(token) == PreviewSwitch ==> expected == cli.(preview := true)
    requires on && Classify(token) == NoLogSwitch ==> expected == cli.(noLog := true)
    requires !on ==> expected == cli
    ensures ParseFrom(Flag(on, token), cli) == Ok(expected)
  {
    if on {
      assert Flag(on, token)[1..] == [];
    }
  }

  lemma TtyParses(tty: Option<nat>, cli: Cli)
    requires tty.None? || 1 <= tty.value <= MAX_TTY
    requires cli.tty.None?
    ensures ParseFrom(TtyArgs(tty), cli) == Ok(cli.(tty := tty))
  {
    if tty.Some? {
      var args := TtyArgs(tty);
      TtyToken();
      ParseU8OfDecimal(tty.value);
      assert SetValue(cli, TtyFlag, args[1]) == Ok(cli.(tty := tty));
      assert StepToken(Trim(args[0]), NextArg(args), cli) == Continue(cli.(tty := tty), 2);
      assert args[2..] == [];
    } else {
      assert cli.(tty := tty) == cli;
    }
  }

  lemma WordToken(w: string, c: Subcommand)
    requires w != [] && !IsWhitespace(w[0]) && !IsWhitespace(w[|w| - 1])
    requires Classify(w) == Sub(c)
    ensures Trim(w) == w && Classify(Trim(w)) == Sub(c)
  {
    TrimIdentity(w);
  }

  lemma SubcommandTokenParses(c: Subcommand)
    ensures Trim(SubcommandToken(c)) == SubcommandToken(c) && Classify(SubcommandToken(c)) == Sub(c)
  {
    match c {
      case Envs => WordToken("envs", Envs);
      case Cache => WordToken("cache", Cache);
      case Help => WordToken("help", Help);
      case Version => WordToken("--version", Version);
      case GuiTest => WordToken("gui-test", GuiTest);
    }
  }

  lemma CommandParses(c: Option<Subcommand>, cli: Cli)
    requires cli.command.None?
    ensures ParseFrom(CommandArgs(c), cli) == Ok(cli.(command := c))
  {
    if c.Some? {
      var args := CommandArgs(c);
      SubcommandTokenParses(c.value);
      assert StepToken(Trim(args[0]), NextArg(args), cli) == Continue(cli.(command := c), 1);
      assert args[1..] == [];
    } else {
      assert cli.(command := c) == cli;
    }
  }

  lemma SwitchTokens()
    ensures Trim("--preview") == "--preview" && Classify("--preview") == PreviewSwitch
    ensures Trim("--no-log") == "--no-log" && Classify("--no-log") == NoLogSwitch
  {
    TrimIdentity("--preview");
    TrimIdentity("--no-log");
  }

  lemma TtyToken()
    ensures Trim("--tty") == "--tty" && Classify("--tty") == Takes(TtyFlag)
  {
    TrimIdentity("--tty");
  }

  lemma ConfigToken()
    ensures Trim("--config") == "--config" && Classify("--config") == Takes(ConfigFlag)
  {
    TrimIdentity("--config");
  }

  lemma VariablesToken()
    ensures Trim("--variables") == "--variables" && Classify("--variables") == Takes(VariablesFlag)
  {
    TrimIdentity("--variables");
  }

  lemma XsessionsToken()
    ensures Trim("--xsessions") == "--xsessions" && Classify("--xsessions") == Takes(XsessionsFlag)
  {
    TrimIdentity("--xsessions");
  }

  lemma WlsessionsToken()
    ensures Trim("--wlsessions") == "--wlsessions" && Classify("--wlsessions") == Takes(WlsessionsFlag)
  {
    TrimIdentity("--wlsessions");
  }

  lemma InitialPathToken()
    ensures Trim("--initial-path") == "--initial-path" && Classify("--initial-path") == Takes(InitialPathFlag)
  {
    TrimIdentity("--initial-path");
  }

  /** The session-path flags and the subcommand of a rendering, parsed from a command line that has none of them yet. */
  lemma SessionValuesParse(cli: Cli)
    ensures var base := cli.(xsessions := None, wlsessions := None, initialPath := None, command := None);
      ParseFrom(Pair("--xsessions", cli.xsessions) + (Pair("--wlsessions", cli.wlsessions)
        + (Pair("--initial-path", cli.initialPath) + CommandArgs(cli.command))), base) == Ok(cli)
  {
    var xs := Pair("--xsessions", cli.xsessions);
    var ws := Pair("--wlsessions", cli.wlsessions);
    var ip := Pair("--initial-path", cli.initialPath);
    var cm := CommandArgs(cli.command);
    var c5 := cli.(xsessions := None, wlsessions := None, initialPath := None, command := None);
    var c6 := c5.(xsessions := cli.xsessions);
    XsessionsToken();
    PairParses("--xsessions", XsessionsFlag, cli.xsessions, c5);
    var c7 := c6.(wlsessions := cli.wlsessions);
    WlsessionsToken();
    PairParses("--wlsessions", WlsessionsFlag, cli.wlsessions, c6);
    var c8 := c7.(initialPath := cli.initialPath);
    InitialPathToken();
    PairParses("--initial-path", InitialPathFlag, cli.initialPath, c7);
    CommandParses(cli.command, c8);
    assert c8.(command := cli.command) == cli;
    var r8 := ip + cm;
    ParseConcat(ip, cm, c7);
    var r7 := ws + r8;
    ParseConcat(ws, r8, c6);
    ParseConcat(xs, r7, c5);
  }

  /** The value flags of a rendering, parsed from a command line that has none of them yet. */
  lemma ValuesParse(cli: Cli)
    ensures var base := cli.(config := None, variables := None, xsessions := None, wlsessions := None,
                             initialPath := None, command := None);
      ParseFrom(Pair("--config", cli.config) + (Pair("--variables", cli.variables)
        + (Pair("--xsessions", cli.xsessions) + (Pair("--wlsessions", cli.wlsessions)
        + (Pair("--initial-path", cli.initialPath) + CommandArgs(cli.command))))), base) == Ok(cli)
  {
    var cf := Pair("--config", cli.config);
    var vs := Pair("--variables", cli.variables);
    var r6 := Pair("--xsessions", cli.xsessions) + (Pair("--wlsessions", cli.wlsessions)
        + (Pair("--initial-path", cli.initialPath) + CommandArgs(cli.command)));
    var c3 := cli.(config := None, variables := None, xsessions := None, wlsessions := None,
                   initialPath := None, command := None);
    var c4 := c3.(config := cli.config);
    ConfigToken();
    PairParses("--config", ConfigFlag, cli.config, c3);
    var c5 := c4.(variables := cli.variables);
    VariablesToken();
    PairParses("--variables", VariablesFlag, cli.variables, c4);
    SessionValuesParse(cli);
    assert c5 == cli.(xsessions := None, wlsessions := None, initialPath := None, command := None);
    var r5 := vs + r6;
    ParseConcat(vs, r6, c4);
    ParseConcat(cf, r5, c3);
  }

  /** Every command line with a valid terminal number is recovered from its rendering. */
  lemma RenderRoundTrip(cli: Cli)
    requires cli.tty.None? || 1 <= cli.tty.value <= MAX_TTY
    ensures ParseArgs(Render(cli)) == Ok(cli)
  {
    SwitchTokens();
    var p := Flag(cli.preview, "--preview");
    var n := Flag(cli.noLog, "--no-log");
    var t := TtyArgs(cli.tty);
    var rest := Pair("--config", cli.config) + (Pair("--variables", cli.variables)
        + (Pair("--xsessions", cli.xsessions) + (Pair("--wlsessions", cli.wlsessions)
        + (Pair("--initial-path", cli.initialPath) + CommandArgs(cli.command)))));
    var c0 := Default;
    var c1 := c0.(preview := cli.preview);
    FlagParses(cli.preview, "--preview", c0, c1);
    var c2 := c1.(noLog := cli.noLog);
    FlagParses(cli.noLog, "--no-log", c1, c2);
    var c3 := c2.(tty := cli.tty);
    TtyParses(cli.tty, c2);
    ValuesParse(cli);
    assert c3 == cli.(config := None, variables := None, xsessions := None, wlsessions := None,
                      initialPath := None, command := None);
    var r3 := t + rest;
    ParseConcat(t, rest, c2);
    var r2 := n + r3;
    ParseConcat(n, r3, c1);
    ParseConcat(p, r2, c0);
    assert Render(cli) == p + r2;
  }

  /** A lone token that takes no value is handled on its own. */
  lemma WordParses(t: string, cli: Cli)
    requires Trim(t) == t && !Classify(t).Takes? && !Classify(t).Unknown?
    ensures StepToken(t, None, cli).Continue?
    ensures ParseFrom([t], cli) == Ok(StepToken(t, None, cli).cli)
  {
    assert [t][1..] == [];
  }

  /** Two tokens that take no value are handled one after the other. */
  lemma WordsParse(t1: string, t2: string, cli: Cli)
    requires Trim(t1) == t1 && !Classify(t1).Takes? && !Classify(t1).Unknown?
    requires Trim(t2) == t2 && !Classify(t2).Takes? && !Classify(t2).Unknown?
    ensures ParseFrom([t1, t2], cli) == Ok(StepToken(t2, None, StepToken(t1, None, cli).cli).cli)
  {
    WordParses(t1, cli);
    WordParses(t2, StepToken(t1, None, cli).cli);
    ParseConcat([t1], [t2], cli);
    assert [t1] + [t2] == [t1, t2];
  }

  /** The subcommand on its own. */
  lemma GuiTestAlone()
    ensures ParseArgs(["gui-test"]) == Ok(Default.(command := Some(GuiTest)))
  {
    SubcommandTokenParses(GuiTest);
    WordParses("gui-test", Default);
  }

  /** The subcommand after a switch. */
  lemma GuiTestAfterPreview()
    ensures ParseArgs(["--preview", "gui-test"]) == Ok(Default.(preview := true, command := Some(GuiTest)))
  {
    SubcommandTokenParses(GuiTest);
    SwitchTokens();
    WordsParse("--preview", "gui-test", Default);
  }

  /** The subcommand before a switch. */
  lemma GuiTestBeforePreview()
    ensures ParseArgs(["gui-test", "--preview"]) == Ok(Default.(preview := true, command := Some(GuiTest)))
  {
    SubcommandTokenParses(GuiTest);
    SwitchTokens();
    WordsParse("gui-test", "--preview", Default);
  }
}
