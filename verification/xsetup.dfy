/**
 * Starting the X server: the `.Xauthority` preparation, the server command
 * line, and the readiness handshake, in which the login manager blocks
 * SIGUSR1, reads it through a signal descriptor, and polls until the server
 * raises it, exits, or the configured timeout passes.
 *
 * Environment lookups, the random cookie, the clock, `pthread_sigmask`,
 * `signalfd`, `poll`, `read`, `try_wait` and `kill` are oracle inputs.
 */
module XSetup {
  import opened Wrappers
  import opened EnvContainer

  datatype XSetupError =
    | DisplayEnvVar
    | HomeEnvVar
    | VTNREnvVar
    | FillingXAuth
    | InvalidUTF8Path
    | XServerStart
    | XServerTimeout
    | XServerPrematureExit
    | SignalMasking(reason: string)
    | SignalFdCreation(reason: string)
    | PollError(reason: string)

  /** The Linux signal number of SIGUSR1. */
  const SIGUSR1: nat := 10

  /** Milliseconds the loop waits per poll at most. */
  const POLL_INTERVAL_MS: nat := 100

  /** The remaining time used when no timeout is configured. */
  const UNBOUNDED_MS: nat := 1000000

  // ---------------------------------------------------------------------------
  // Strings handed to the shell
  // ---------------------------------------------------------------------------

  /** A virtual-terminal number of one character is padded to two with a leading "0". */
  function PadVt(vtnr: string): (r: string)
    ensures |vtnr| == 1 ==> r == ['0'] + vtnr
    ensures |vtnr| != 1 ==> r == vtnr
  {
    if |vtnr| == 1 then "0" + vtnr else vtnr
  }

  /** The padded number always has at least two characters, unless it was empty. */
  lemma PadVtWidth(vtnr: string)
    ensures vtnr != [] ==> |PadVt(vtnr)| >= 2
    ensures PadVt(vtnr)[|PadVt(vtnr)| - |vtnr|..] == vtnr
  {
  }

  /** Appends a relative file name to a directory, adding a separator only when one is missing. */
  function JoinPath(dir: string, name: string): (r: string)
    ensures dir == [] ==> r == name
    ensures dir != [] && dir[|dir| - 1] == '/' ==> r == dir + name
    ensures dir != [] && dir[|dir| - 1] != '/' ==> r == dir + "/" + name
  {
    if dir == [] then name
    else if dir[|dir| - 1] == '/' then dir + name
    else dir + "/" + name
  }

  /** The joined path ends with the file name and begins with the directory. */
  lemma JoinPathParts(dir: string, name: string)
    ensures |JoinPath(dir, name)| >= |dir| + |name|
    ensures JoinPath(dir, name)[..|dir|] == dir
    ensures JoinPath(dir, name)[|JoinPath(dir, name)| - |name|..] == name
  {
  }

  function HexDigit(d: nat): (c: char)
    requires d < 16
  {
    if d < 10 then '0' + d as char else 'a' + (d - 10) as char
  }

  function HexValue(c: char): (d: nat)
  {
    if '0' <= c <= '9' then c as nat - '0' as nat
    else if 'a' <= c <= 'f' then c as nat - 'a' as nat + 10
    else 0
  }

  function Pow16(w: nat): (p: nat)
    ensures p >= 1
  {
    if w == 0 then 1 else 16 * Pow16(w - 1)
  }

  /** The `w` lowest hexadecimal digits of `n`, most significant first, in lower case. */
  function Hex(n: nat, w: nat): (s: string)
    ensures |s| == w
    ensures forall i :: 0 <= i < |s| ==> '0' <= s[i] <= '9' || 'a' <= s[i] <= 'f'
  {
    if w == 0 then [] else Hex(n / 16, w - 1) + [HexDigit(n % 16)]
  }

  /** Reads a string of hexadecimal digits, most significant first. */
  function ParseHex(s: string): (n: nat)
  {
    if s == [] then 0 else 16 * ParseHex(s[..|s| - 1]) + HexValue(s[|s| - 1])
  }

  /** The 128-bit random cookie as 32 zero-padded lower-case hexadecimal digits. */
  function Mcookie(random: nat): (s: string)
    requires random < Pow16(32)
    ensures |s| == 32
    ensures forall i :: 0 <= i < |s| ==> '0' <= s[i] <= '9' || 'a' <= s[i] <= 'f'
  {
    Hex(random, 32)
  }

  /** Printing `n` in `w` hexadecimal digits loses nothing when `n` fits. */
  lemma {:induction false} HexRoundTrip(n: nat, w: nat)
    requires n < Pow16(w)
    ensures ParseHex(Hex(n, w)) == n
  {
    if w > 0 {
      var s := Hex(n, w);
      assert s[..|s| - 1] == Hex(n / 16, w - 1);
      assert n / 16 < Pow16(w - 1);
      HexRoundTrip(n / 16, w - 1);
      assert HexValue(HexDigit(n % 16)) == n % 16;
    }
  }

  /** The cookie names exactly the random value it came from. */
  lemma McookieRoundTrip(random: nat)
    requires random < Pow16(32)
    ensures ParseHex(Mcookie(random)) == random
  {
    HexRoundTrip(random, 32);
  }

  // ---------------------------------------------------------------------------
  // The readiness wait
  // ---------------------------------------------------------------------------

  /** What reading the signal descriptor yields. */
  datatype ReadResult = ReadSignal(signo: nat) | ReadNothing | ReadFailed

  /** What one `poll` call yields: interrupted, failed otherwise, timed out, or ready. */
  datatype PollResult =
    | PollInterrupted
    | PollFailed(reason: string)
    | PollTimedOut
    | PollReady(pollin: bool, read: ReadResult)

  /** The foreign answers seen by one iteration: clock, poll (and read), and `try_wait`. */
  datatype Tick = Tick(elapsedMs: nat, poll: PollResult, childExited: bool)

  datatype WaitOutcome = Ready | TimedOut | PollErr(reason: string) | PrematureExit | Pending

  datatype TickVerdict = Continue | Stop(outcome: WaitOutcome)

  /** The time left before the deadline, or a large constant when no timeout is configured. */
  function RemainingTime(timeoutSecs: nat, elapsedMs: nat): (r: nat)
    ensures timeoutSecs == 0 ==> r == UNBOUNDED_MS
    ensures timeoutSecs != 0 ==> (r == 0 <==> elapsedMs >= timeoutSecs * 1000)
    ensures timeoutSecs != 0 && r != 0 ==> elapsedMs + r == timeoutSecs * 1000
  {
    if timeoutSecs == 0 then UNBOUNDED_MS
    else
      var total := timeoutSecs * 1000;
      if elapsedMs >= total then 0 else total - elapsedMs
  }

  /** The poll timeout: the poll interval, or less when the deadline is nearer. */
  function EffectiveTimeout(remaining: nat): (t: nat)
    ensures t <= POLL_INTERVAL_MS && t <= remaining
    ensures t == POLL_INTERVAL_MS || t == remaining
  {
    if remaining < POLL_INTERVAL_MS then remaining else POLL_INTERVAL_MS
  }

  predicate IsTimeout(timeoutSecs: nat, t: Tick) {
    RemainingTime(timeoutSecs, t.elapsedMs) == 0 && timeoutSecs != 0
  }

  predicate IsReadySignal(p: PollResult) {
    p.PollReady? && p.pollin && p.read == ReadSignal(SIGUSR1)
  }

  /** One pass of the wait loop. */
  function TickStep(timeoutSecs: nat, t: Tick): (v: TickVerdict)
    ensures v == Stop(TimedOut) <==> timeoutSecs != 0 && t.elapsedMs >= timeoutSecs * 1000
    ensures v == Stop(Ready) <==> !IsTimeout(timeoutSecs, t) && IsReadySignal(t.poll)
    ensures v.Stop? && v.outcome.PollErr? <==> !IsTimeout(timeoutSecs, t) && t.poll.PollFailed?
    ensures v.Stop? && v.outcome.PollErr? ==> v.outcome.reason == t.poll.reason
    ensures v == Stop(PrematureExit) <==>
      !IsTimeout(timeoutSecs, t) && !t.poll.PollFailed? && !IsReadySignal(t.poll) && t.childExited
    ensures v != Stop(Pending)
  {
    if RemainingTime(timeoutSecs, t.elapsedMs) == 0 && timeoutSecs != 0 then Stop(TimedOut)
    else if t.poll.PollFailed? then Stop(PollErr(t.poll.reason))
    else if IsReadySignal(t.poll) then Stop(Ready)
    else if t.childExited then Stop(PrematureExit)
    else Continue
  }

  /** An interrupted poll is retried as long as the server lives and time is left. */
  lemma InterruptedPollRetries(timeoutSecs: nat, t: Tick)
    requires t.poll == PollInterrupted && !t.childExited && !IsTimeout(timeoutSecs, t)
    ensures TickStep(timeoutSecs, t) == Continue
  {
  }

  /** Signals other than SIGUSR1, empty reads and failed reads keep the loop going. */
  lemma OnlySigusr1IsReady(timeoutSecs: nat, t: Tick)
    requires t.poll.PollReady? && (t.poll.read != ReadSignal(SIGUSR1) || !t.poll.pollin)
    ensures TickStep(timeoutSecs, t) != Stop(Ready)
    ensures !IsTimeout(timeoutSecs, t) && !t.childExited ==> TickStep(timeoutSecs, t) == Continue
  {
  }

  /** The loop decides `outcome` in iteration `n` (counted from 1), every earlier iteration continuing. */
  ghost predicate DecidesAt(timeoutSecs: nat, ticks: seq<Tick>, n: nat, outcome: WaitOutcome) {
    0 < n <= |ticks| && TickStep(timeoutSecs, ticks[n - 1]) == Stop(outcome)
    && forall k :: 0 <= k < n - 1 ==> TickStep(timeoutSecs, ticks[k]) == Continue
  }

  /** The loop decides at most once. */
  lemma DecidesAtUnique(timeoutSecs: nat, ticks: seq<Tick>, n: nat, m: nat, a: WaitOutcome, b: WaitOutcome)
    requires DecidesAt(timeoutSecs, ticks, n, a) && DecidesAt(timeoutSecs, ticks, m, b)
    ensures n == m && a == b
  {
  }

  /**
   * The wait loop over the iterations the oracle provides. `waits` lists
   * the timeout of every poll made; `Pending` means the oracle ran out
   * before the loop decided.
   */
  method WaitForReady(timeoutSecs: nat, ticks: seq<Tick>) returns (outcome: WaitOutcome, iterations: nat, waits: seq<nat>)
    ensures iterations <= |ticks|
    ensures outcome != Pending ==> DecidesAt(timeoutSecs, ticks, iterations, outcome)
    ensures outcome == Pending <==> forall k :: 0 <= k < |ticks| ==> TickStep(timeoutSecs, ticks[k]) == Continue
    ensures outcome == Pending ==> iterations == |ticks|
    ensures |waits| == if outcome == TimedOut then iterations - 1 else iterations
    ensures forall k :: 0 <= k < |waits| ==>
      waits[k] == EffectiveTimeout(RemainingTime(timeoutSecs, ticks[k].elapsedMs)) && 1 <= waits[k] <= POLL_INTERVAL_MS
    ensures forall k :: 0 <= k < |ticks| && timeoutSecs != 0 && ticks[k].elapsedMs >= timeoutSecs * 1000 ==>
      outcome != Pending && iterations <= k + 1
  {
    var i := 0;
    waits := [];
    outcome := Pending;
    while i < |ticks|
      invariant 0 <= i <= |ticks|
      invariant |waits| == i
      invariant forall k :: 0 <= k < i ==> TickStep(timeoutSecs, ticks[k]) == Continue
      invariant forall k :: 0 <= k < i ==>
        waits[k] == EffectiveTimeout(RemainingTime(timeoutSecs, ticks[k].elapsedMs)) && 1 <= waits[k] <= POLL_INTERVAL_MS
    {
      var t := ticks[i];
      var remaining := RemainingTime(timeoutSecs, t.elapsedMs);
      if remaining == 0 && timeoutSecs != 0 {
        return TimedOut, i + 1, waits;
      }
      waits := waits + [EffectiveTimeout(remaining)];
      var verdict := TickStep(timeoutSecs, t);
      if verdict.Stop? {
        return verdict.outcome, i + 1, waits;
      }
      i := i + 1;
    }
    iterations := i;
  }

  // ---------------------------------------------------------------------------
  // The whole setup
  // ---------------------------------------------------------------------------

  datatype XConfig = XConfig(
    systemShell: string, xauthPath: string, xserverPath: string, xserverLogPath: string,
    doLog: bool, timeoutSecs: nat)

  /** Everything outside the model that the setup asks for, in the order it asks. */
  datatype XOracle = XOracle(
    display: Option<string>,
    vtnr: Option<string>,
    home: Option<string>,
    random: nat,
    xauthSpawnOk: bool,
    block: Outcome<string>,
    signalFd: Outcome<string>,
    spawnPid: Option<nat>,
    ticks: seq<Tick>,
    unblock: Outcome<string>)

  /** The `xauth` invocation: a shell command run with the user's ids. */
  datatype XauthCall = XauthCall(command: Command, uid: nat, gid: nat)

  /** The server launch: the shell command and where its output is logged. */
  datatype ServerLaunch = ServerLaunch(command: Command, logPath: Option<string>)

  datatype MaskCall = BlockSigusr1 | UnblockSigusr1

  datatype XResult = XStarted(pid: nat) | XFailed(error: XSetupError) | XWaiting

  datatype XSetupRun = XSetupRun(
    env: Container,
    xauth: Option<XauthCall>,
    server: Option<ServerLaunch>,
    maskCalls: seq<MaskCall>,
    sigusr1Blocked: bool,
    waits: seq<nat>,
    killed: bool,
    result: XResult)

  function ShellCommand(shell: string, script: string): Command {
    Arg(Arg(NewCommand(shell), "-c"), script)
  }

  /** The state of the mask after an unblock call with the given answer. */
  function AfterUnblock(blocked: bool, answer: Outcome<string>): bool {
    if answer.Pass? then false else blocked
  }

  function XauthScript(config: XConfig, display: string, random: nat): string
    requires random < Pow16(32)
  {
    config.xauthPath + " add " + display + " . " + Mcookie(random)
  }

  function ServerScript(config: XConfig, display: string, vtnr: string): string {
    config.xserverPath + " " + display + " vt" + PadVt(vtnr)
  }

  /**
   * Everything up to the start of the wait: the environment checks, `xauth`,
   * XAUTHORITY, blocking SIGUSR1, the signal descriptor and the server
   * launch. A run that reaches the wait has result `XWaiting`.
   */
  function Prepare(env: Container, uid: nat, gid: nat, config: XConfig, o: XOracle, initiallyBlocked: bool)
    : (run: XSetupRun)
    requires o.random < Pow16(32)
    ensures run.waits == [] && !run.killed
    // The checks made before the mask is touched, in source order.
    ensures o.display.None? ==> run.result == XFailed(DisplayEnvVar)
    ensures o.display.Some? && o.vtnr.None? ==> run.result == XFailed(VTNREnvVar)
    ensures o.display.Some? && o.vtnr.Some? && o.home.None? ==> run.result == XFailed(HomeEnvVar)
    ensures run.xauth.Some? <==> o.display.Some? && o.vtnr.Some? && o.home.Some?
    ensures run.xauth.Some? ==>
      run.xauth.value == XauthCall(ShellCommand(config.systemShell, XauthScript(config, o.display.value, o.random)), uid, gid)
    ensures run.xauth.Some? && !o.xauthSpawnOk ==> run.result == XFailed(FillingXAuth)
    ensures run.xauth.None? || !o.xauthSpawnOk ==>
      run.maskCalls == [] && run.sigusr1Blocked == initiallyBlocked && run.env == env && run.server.None?
    // From here on XAUTHORITY names the file in the home directory and SIGUSR1 is being blocked.
    ensures run.xauth.Some? && o.xauthSpawnOk ==>
      run.env == Set(env, "XAUTHORITY", JoinPath(o.home.value, ".Xauthority"))
      && |run.maskCalls| >= 1 && run.maskCalls[0] == BlockSigusr1
    ensures run.maskCalls == [BlockSigusr1] && o.block.Fail? ==>
      run.result == XFailed(SignalMasking(o.block.error)) && run.sigusr1Blocked == initiallyBlocked
    ensures run.maskCalls == [BlockSigusr1] && o.block.Pass? && o.signalFd.Fail? ==>
      run.result == XFailed(SignalFdCreation(o.signalFd.error)) && run.sigusr1Blocked
    // The server command line.
    ensures run.server.Some? <==> run.xauth.Some? && o.xauthSpawnOk && o.block.Pass? && o.signalFd.Pass?
    ensures run.server.Some? ==> run.server.value == ServerLaunch(
      ShellCommand(config.systemShell, ServerScript(config, o.display.value, o.vtnr.value)),
      if config.doLog then Some(config.xserverLogPath) else None)
    ensures run.server.Some? && o.spawnPid.None? ==>
      run.result == XFailed(XServerStart) && run.maskCalls == [BlockSigusr1, UnblockSigusr1]
      && run.sigusr1Blocked == o.unblock.Fail?
    ensures run.result == XWaiting <==> run.server.Some? && o.spawnPid.Some?
    ensures run.result == XWaiting ==> run.maskCalls == [BlockSigusr1] && run.sigusr1Blocked
    // The errors that arise before the wait.
    ensures run.result.XFailed? ==> !run.result.error.XServerTimeout? && !run.result.error.XServerPrematureExit?
  {
    var start := XSetupRun(env, None, None, [], initiallyBlocked, [], false, XWaiting);
    if o.display.None? then start.(result := XFailed(DisplayEnvVar))
    else if o.vtnr.None? then start.(result := XFailed(VTNREnvVar))
    else if o.home.None? then start.(result := XFailed(HomeEnvVar))
    else
      var xauth := XauthCall(ShellCommand(config.systemShell, XauthScript(config, o.display.value, o.random)), uid, gid);
      var withXauth := start.(xauth := Some(xauth));
      if !o.xauthSpawnOk then withXauth.(result := XFailed(FillingXAuth))
      else Launch(withXauth, config, o)
  }

  /**
   * After `xauth` was spawned: XAUTHORITY, blocking SIGUSR1, the signal
   * descriptor and the server launch.
   */
  function Launch(pre: XSetupRun, config: XConfig, o: XOracle): (run: XSetupRun)
    requires o.display.Some? && o.vtnr.Some? && o.home.Some?
    requires pre.server.None? && pre.maskCalls == [] && pre.waits == [] && !pre.killed && pre.result == XWaiting
    ensures run.xauth == pre.xauth && run.waits == [] && !run.killed
    ensures run.env == Set(pre.env, "XAUTHORITY", JoinPath(o.home.value, ".Xauthority"))
    ensures |run.maskCalls| >= 1 && run.maskCalls[0] == BlockSigusr1
    ensures o.block.Fail? ==>
      run.result == XFailed(SignalMasking(o.block.error)) && run.maskCalls == [BlockSigusr1]
      && run.sigusr1Blocked == pre.sigusr1Blocked
    ensures o.block.Pass? && o.signalFd.Fail? ==>
      run.result == XFailed(SignalFdCreation(o.signalFd.error)) && run.maskCalls == [BlockSigusr1] && run.sigusr1Blocked
    ensures run.server.Some? <==> o.block.Pass? && o.signalFd.Pass?
    ensures run.server.Some? ==> run.server.value == ServerLaunch(
      ShellCommand(config.systemShell, ServerScript(config, o.display.value, o.vtnr.value)),
      if config.doLog then Some(config.xserverLogPath) else None)
    ensures run.server.Some? && o.spawnPid.None? ==>
      run.result == XFailed(XServerStart) && run.maskCalls == [BlockSigusr1, UnblockSigusr1]
      && run.sigusr1Blocked == o.unblock.Fail?
    ensures run.result == XWaiting <==> run.server.Some? && o.spawnPid.Some?
    ensures run.result == XWaiting ==> run.maskCalls == [BlockSigusr1] && run.sigusr1Blocked
    ensures run.result.XFailed? ==> !run.result.error.XServerTimeout? && !run.result.error.XServerPrematureExit?
  {
    var blocking := pre.(env := Set(pre.env, "XAUTHORITY", JoinPath(o.home.value, ".Xauthority")),
                         maskCalls := [BlockSigusr1]);
    if o.block.Fail? then blocking.(result := XFailed(SignalMasking(o.block.error)))
    else
      var blocked := blocking.(sigusr1Blocked := true);
      // A failed signal descriptor returns without touching the mask again.
      if o.signalFd.Fail? then blocked.(result := XFailed(SignalFdCreation(o.signalFd.error)))
      else
        var launched := blocked.(server := Some(ServerLaunch(
          ShellCommand(config.systemShell, ServerScript(config, o.display.value, o.vtnr.value)),
          if config.doLog then Some(config.xserverLogPath) else None)));
        if o.spawnPid.None? then
          launched.(maskCalls := [BlockSigusr1, UnblockSigusr1],
                    sigusr1Blocked := AfterUnblock(true, o.unblock),
                    result := XFailed(XServerStart))
        else launched
  }

  /**
   * The one exit that leaves SIGUSR1 blocked although it was not blocked on
   * entry: the signal descriptor cannot be created after the block succeeded.
   */
  lemma SignalFdFailureLeavesSigusr1Blocked(env: Container, uid: nat, gid: nat, config: XConfig, o: XOracle)
    requires o.random < Pow16(32)
    requires o.display.Some? && o.vtnr.Some? && o.home.Some? && o.xauthSpawnOk
    requires o.block.Pass? && o.signalFd.Fail?
    ensures var run := Prepare(env, uid, gid, config, o, false);
      run.result == XFailed(SignalFdCreation(o.signalFd.error))
      && run.maskCalls == [BlockSigusr1] && run.sigusr1Blocked
  {
  }

  /** The end of the wait: unblock SIGUSR1 and report; a timeout also kills the server. */
  function AfterWait(run: XSetupRun, outcome: WaitOutcome, waits: seq<nat>, unblock: Outcome<string>, pid: nat)
    : (r: XSetupRun)
    requires outcome != Pending
    ensures r.env == run.env && r.xauth == run.xauth && r.server == run.server && r.waits == waits
    ensures r.maskCalls == run.maskCalls + [UnblockSigusr1] && r.sigusr1Blocked == AfterUnblock(run.sigusr1Blocked, unblock)
    ensures r.killed <==> outcome == TimedOut
    ensures outcome == TimedOut ==> r.result == XFailed(XServerTimeout)
    ensures outcome.PollErr? ==> r.result == XFailed(PollError(outcome.reason))
    ensures outcome == PrematureExit ==> r.result == XFailed(XServerPrematureExit)
    ensures outcome == Ready && unblock.Fail? ==> r.result == XFailed(SignalMasking(unblock.error))
    ensures r.result.XStarted? <==> outcome == Ready && unblock.Pass?
    ensures r.result.XStarted? ==> r.result.pid == pid
  {
    var unblocked := run.(waits := waits, killed := false, maskCalls := run.maskCalls + [UnblockSigusr1],
                          sigusr1Blocked := AfterUnblock(run.sigusr1Blocked, unblock));
    match outcome
    case TimedOut => unblocked.(killed := true, result := XFailed(XServerTimeout))
    case PollErr(reason) => unblocked.(result := XFailed(PollError(reason)))
    case PrematureExit => unblocked.(result := XFailed(XServerPrematureExit))
    case Ready =>
      if unblock.Fail? then unblocked.(result := XFailed(SignalMasking(unblock.error)))
      else unblocked.(result := XStarted(pid))
  }

  /**
   * The wait for the launched server and the report after it. The result
   * `XWaiting` means the oracle's iterations ran out first.
   */
  method WaitAndFinish(pre: XSetupRun, config: XConfig, o: XOracle) returns (run: XSetupRun)
    requires pre.result == XWaiting && pre.server.Some? && o.spawnPid.Some?
    requires pre.maskCalls == [BlockSigusr1] && pre.sigusr1Blocked && pre.waits == [] && !pre.killed
    ensures run.env == pre.env && run.xauth == pre.xauth && run.server == pre.server
    ensures run.result != XWaiting ==>
      run.maskCalls == [BlockSigusr1, UnblockSigusr1] && run.sigusr1Blocked == o.unblock.Fail?
    ensures run.result == XWaiting ==>
      run == pre.(waits := run.waits) && forall k :: 0 <= k < |o.ticks| ==> TickStep(config.timeoutSecs, o.ticks[k]) == Continue
    ensures forall k :: 0 <= k < |run.waits| ==> 1 <= run.waits[k] <= POLL_INTERVAL_MS
    ensures run.killed <==> run.result == XFailed(XServerTimeout)
    ensures run.killed ==> exists n :: DecidesAt(config.timeoutSecs, o.ticks, n, TimedOut)
    ensures run.result == XFailed(XServerPrematureExit) ==> exists n :: DecidesAt(config.timeoutSecs, o.ticks, n, PrematureExit)
    ensures run.result.XStarted? <==> o.unblock.Pass? && exists n :: DecidesAt(config.timeoutSecs, o.ticks, n, Ready)
    ensures run.result.XStarted? ==> run.result.pid == o.spawnPid.value && !run.sigusr1Blocked
  {
    var outcome, iterations, waits := WaitForReady(config.timeoutSecs, o.ticks);
    if outcome == Pending {
      return pre.(waits := waits);
    }
    forall n | DecidesAt(config.timeoutSecs, o.ticks, n, Ready)
      ensures outcome == Ready
    {
      DecidesAtUnique(config.timeoutSecs, o.ticks, n, iterations, Ready, outcome);
    }
    run := AfterWait(pre, outcome, waits, o.unblock, o.spawnPid.value);
  }

  /**
   * Prepares `.Xauthority`, starts the X server and waits for its readiness
   * signal. `initiallyBlocked` is whether SIGUSR1 was blocked on entry.
   * The result `XWaiting` means the oracle's iterations ran out first.
   */
  method SetupX(env: Container, uid: nat, gid: nat, config: XConfig, o: XOracle, initiallyBlocked: bool)
    returns (run: XSetupRun)
    requires o.random < Pow16(32)
    ensures var pre := Prepare(env, uid, gid, config, o, initiallyBlocked);
      run.env == pre.env && run.xauth == pre.xauth && run.server == pre.server
      && (pre.result != XWaiting ==> run == pre)
    // Every exit after the server launch unblocks SIGUSR1 once, except a wait cut short by the oracle.
    ensures run.server.Some? && run.result != XWaiting ==>
      run.maskCalls == [BlockSigusr1, UnblockSigusr1] && run.sigusr1Blocked == o.unblock.Fail?
    ensures run.result == XWaiting ==>
      run.server.Some? && o.spawnPid.Some? && run.maskCalls == [BlockSigusr1] && run.sigusr1Blocked
      && forall k :: 0 <= k < |o.ticks| ==> TickStep(config.timeoutSecs, o.ticks[k]) == Continue
    // The wait: polls are bounded, a timeout kills the server, readiness starts it.
    ensures forall k :: 0 <= k < |run.waits| ==> 1 <= run.waits[k] <= POLL_INTERVAL_MS
    ensures run.killed <==> run.result == XFailed(XServerTimeout)
    ensures run.killed ==> exists n :: DecidesAt(config.timeoutSecs, o.ticks, n, TimedOut)
    ensures run.result == XFailed(XServerPrematureExit) ==> exists n :: DecidesAt(config.timeoutSecs, o.ticks, n, PrematureExit)
    ensures run.result.XStarted? <==>
      run.server.Some? && o.spawnPid.Some? && o.unblock.Pass?
      && exists n :: DecidesAt(config.timeoutSecs, o.ticks, n, Ready)
    ensures run.result.XStarted? ==> run.result.pid == o.spawnPid.value && !run.sigusr1Blocked
  {
    run := Prepare(env, uid, gid, config, o, initiallyBlocked);
    if run.result == XWaiting {
      run := WaitAndFinish(run, config, o);
    }
  }
}
