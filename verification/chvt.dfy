/**
 * Switching the active virtual terminal: finding a console file
 * descriptor, then activating the terminal and waiting for it.
 *
 * Every `open`, `close` and `ioctl` is an oracle answer. A descriptor the
 * code opened itself is owned and closed afterwards; a standard stream
 * borrowed as the console is never closed.
 */
module Chvt {
  import opened Wrappers

  /** Keyboard types reported by KDGKBTYPE that mark a console. */
  const KB_101: int := 0x02
  const KB_84: int := 0x01

  const EACCES: int := 13
  const EIO: int := 5

  datatype ChvtError = Activate(errno: int) | WaitActive(errno: int) | OpenConsole(errno: int) | NotAConsole | GetFD

  /** The answer of the keyboard-type ioctl: its return value and the type it wrote (zero if none). */
  datatype KbProbe = KbProbe(ret: int, kbType: int)

  /**
   * A descriptor is a console when the keyboard-type query does not return
   * a positive value and the type is one of the two PC keyboards.
   */
  function IsAConsole(p: KbProbe): (b: bool)
    ensures p.ret > 0 ==> !b
    ensures p.ret <= 0 ==> (b <==> p.kbType == KB_101 || p.kbType == KB_84)
  {
    p.ret <= 0 && (p.kbType == KB_101 || p.kbType == KB_84)
  }

  /** A query that fails leaves the type at its initial zero, so nothing is a console then. */
  lemma FailedProbeIsNotConsole(ret: int)
    requires ret < 0
    ensures !IsAConsole(KbProbe(ret, 0))
  {
  }

  /** The open modes tried, in order. */
  datatype OFlag = ReadWrite | ReadOnly | WriteOnly

  const FLAG_ORDER: seq<OFlag> := [ReadWrite, ReadOnly, WriteOnly]

  /** What opening a path with one mode yields: a descriptor and its keyboard probe, or an errno. */
  datatype OpenAnswer = Opened(fd: nat, probe: KbProbe) | OpenFailed(errno: int)

  /** The effects and result of trying to open one path as a console. */
  datatype OpenRun = OpenRun(tried: seq<OFlag>, closed: seq<nat>, result: Result<nat, ChvtError>)

  /**
   * Tries the modes in order on one path; `answers[i]` is the answer for
   * the `i`-th mode. Permission denied moves on to the next mode; any other
   * error gives up. A file that opens but is not a console is closed and
   * reported as such.
   */
  function OpenAConsole(answers: seq<OpenAnswer>): (r: OpenRun)
    requires |answers| == |FLAG_ORDER|
    ensures 1 <= |r.tried| <= 3 && r.tried == FLAG_ORDER[..|r.tried|]
    ensures forall i :: 0 <= i < |r.tried| - 1 ==> answers[i] == OpenFailed(EACCES)
    ensures r.result.Ok? <==> (var last := answers[|r.tried| - 1]; last.Opened? && IsAConsole(last.probe))
    ensures r.result.Ok? ==> r.result.value == answers[|r.tried| - 1].fd && r.closed == []
    ensures r.result == Err(NotAConsole) <==> r.closed != []
    ensures r.closed != [] ==>
      answers[|r.tried| - 1].Opened? && r.closed == [answers[|r.tried| - 1].fd] && !IsAConsole(answers[|r.tried| - 1].probe)
    ensures r.result.Err? && r.result.error != NotAConsole ==>
      r.result.error == OpenConsole(EIO) && answers[|r.tried| - 1].OpenFailed?
  {
    TryFrom(answers, 0)
  }

  function TryFrom(answers: seq<OpenAnswer>, i: nat): (r: OpenRun)
    requires |answers| == |FLAG_ORDER| && i < |FLAG_ORDER|
    ensures i < |r.tried| + i <= 3 + i && |r.tried| + i <= 3 && r.tried == FLAG_ORDER[i..i + |r.tried|]
    ensures forall j :: i <= j < i + |r.tried| - 1 ==> answers[j] == OpenFailed(EACCES)
    ensures var last := answers[i + |r.tried| - 1];
      && (r.result.Ok? <==> last.Opened? && IsAConsole(last.probe))
      && (r.result.Ok? ==> r.result.value == last.fd && r.closed == [])
      && (r.result == Err(NotAConsole) <==> r.closed != [])
      && (r.closed != [] ==> last.Opened? && r.closed == [last.fd] && !IsAConsole(last.probe))
      && (r.result.Err? && r.result.error != NotAConsole ==> r.result.error == OpenConsole(EIO) && last.OpenFailed?)
    decreases |FLAG_ORDER| - i
  {
    match answers[i]
    case Opened(fd, probe) =>
      if !IsAConsole(probe) then OpenRun([FLAG_ORDER[i]], [fd], Err(NotAConsole))
      else OpenRun([FLAG_ORDER[i]], [], Ok(fd))
    case OpenFailed(errno) =>
      if errno == EACCES && i + 1 < |FLAG_ORDER| then
        var rest := TryFrom(answers, i + 1);
        OpenRun([FLAG_ORDER[i]] + rest.tried, rest.closed, rest.result)
      else OpenRun([FLAG_ORDER[i]], [], Err(OpenConsole(EIO)))
  }

  /** The paths tried before falling back to the standard streams. */
  const CONSOLE_PATHS: seq<string> := ["/dev/tty", "/dev/tty0", "/dev/vc/0", "/dev/console"]

  /** A console descriptor, and whether this code owns it. */
  datatype ConsoleFd = Owned(fd: nat) | Shared(fd: nat)

  /** How many streams, from 0 to 2, are probed as a last resort. */
  const STANDARD_STREAMS: nat := 3

  /** The outcome of finding a console, with every descriptor closed along the way. */
  datatype FdRun = FdRun(closed: seq<nat>, result: Result<ConsoleFd, ChvtError>)

  /**
   * Finds a console: the first path that opens as a console, owned;
   * otherwise the first standard stream that is a console, shared;
   * otherwise GetFD.
   */
  function GetConsoleFd(paths: seq<seq<OpenAnswer>>, streams: seq<KbProbe>): (r: FdRun)
    requires |paths| == |CONSOLE_PATHS| && |streams| == STANDARD_STREAMS
    requires forall i :: 0 <= i < |paths| ==> |paths[i]| == |FLAG_ORDER|
    ensures r.result.Ok? && r.result.value.Owned? <==> exists i :: 0 <= i < |paths| && OpenAConsole(paths[i]).result.Ok?
    ensures r.result.Ok? && r.result.value.Owned? ==>
      exists i :: 0 <= i < |paths| && OpenAConsole(paths[i]).result == Ok(r.result.value.fd)
        && forall j :: 0 <= j < i ==> OpenAConsole(paths[j]).result.Err?
    ensures r.result.Ok? && r.result.value.Shared? ==>
      && r.result.value.fd < STANDARD_STREAMS
      && IsAConsole(streams[r.result.value.fd])
      && forall j :: 0 <= j < r.result.value.fd ==> !IsAConsole(streams[j])
    ensures r.result.Err? <==>
      (forall i :: 0 <= i < |paths| ==> OpenAConsole(paths[i]).result.Err?)
      && forall j :: 0 <= j < STANDARD_STREAMS ==> !IsAConsole(streams[j])
    ensures r.result.Err? ==> r.result.error == GetFD
  {
    PathsFrom(OpenAll(paths), 0, streams)
  }

  /** The runs of opening each path in turn, as far as they would go. */
  function OpenAll(paths: seq<seq<OpenAnswer>>): (runs: seq<OpenRun>)
    requires forall k :: 0 <= k < |paths| ==> |paths[k]| == |FLAG_ORDER|
    ensures |runs| == |paths| && forall k :: 0 <= k < |paths| ==> runs[k] == OpenAConsole(paths[k])
  {
    seq(|paths|, k requires 0 <= k < |paths| && |paths[k]| == |FLAG_ORDER| => OpenAConsole(paths[k]))
  }

  /** Takes the first successful run from index `i` on, else falls back to the standard streams. */
  function PathsFrom(runs: seq<OpenRun>, i: nat, streams: seq<KbProbe>): (r: FdRun)
    requires i <= |runs| && |streams| == STANDARD_STREAMS
    ensures r.result.Ok? && r.result.value.Owned? <==> exists k :: i <= k < |runs| && runs[k].result.Ok?
    ensures r.result.Ok? && r.result.value.Owned? ==>
      exists k :: i <= k < |runs| && runs[k].result == Ok(r.result.value.fd) && forall j :: i <= j < k ==> runs[j].result.Err?
    ensures r.result.Ok? && r.result.value.Shared? ==>
      (forall k :: i <= k < |runs| ==> runs[k].result.Err?) && r.result == StreamFallback(streams)
    ensures r.result.Err? <==> (forall k :: i <= k < |runs| ==> runs[k].result.Err?) && StreamFallback(streams).Err?
    ensures r.result.Err? ==> r.result == StreamFallback(streams)
    decreases |runs| - i
  {
    if i == |runs| then
      FdRun([], StreamFallback(streams))
    else if runs[i].result.Ok? then FdRun(runs[i].closed, Ok(Owned(runs[i].result.value)))
    else
      var rest := PathsFrom(runs, i + 1, streams);
      FdRun(runs[i].closed + rest.closed, rest.result)
  }

  /** The first standard stream that is a console, shared, or GetFD. */
  function StreamFallback(streams: seq<KbProbe>): (r: Result<ConsoleFd, ChvtError>)
    requires |streams| == STANDARD_STREAMS
    ensures r.Ok? ==>
      r.value.Shared? && r.value.fd < STANDARD_STREAMS && IsAConsole(streams[r.value.fd]) && forall j :: 0 <= j < r.value.fd ==> !IsAConsole(streams[j])
    ensures r.Err? <==> forall j :: 0 <= j < STANDARD_STREAMS ==> !IsAConsole(streams[j])
    ensures r.Err? ==> r.error == GetFD
  {
    if IsAConsole(streams[0]) then Ok(Shared(0))
    else if IsAConsole(streams[1]) then Ok(Shared(1))
    else if IsAConsole(streams[2]) then Ok(Shared(2))
    else Err(GetFD)
  }

  /** The terminal ioctls issued. */
  datatype VtCall = VtActivate(fd: nat, tty: int) | VtWaitActive(fd: nat, tty: int)

  /** The answers of the two terminal ioctls: a negative return carries an errno. */
  datatype VtOracle = VtOracle(activateRet: int, activateErrno: int, waitRet: int, waitErrno: int)

  /** Everything `chvt` does: descriptors closed, terminal ioctls issued, and the result. */
  datatype ChvtRun = ChvtRun(closed: seq<nat>, calls: seq<VtCall>, result: Outcome<ChvtError>)

  /** Releases the console descriptor: an owned one is closed, a shared one is left open. */
  function Release(c: ConsoleFd): (closed: seq<nat>)
    ensures closed == [] <==> c.Shared?
    ensures c.Owned? ==> closed == [c.fd]
  {
    match c
    case Owned(fd) => [fd]
    case Shared(_) => []
  }

  /**
   * Switches to terminal `tty`: finds a console, activates the terminal,
   * then waits until it is active. A failed activation skips the wait.
   */
  function ChangeVt(tty: int, paths: seq<seq<OpenAnswer>>, streams: seq<KbProbe>, o: VtOracle): (r: ChvtRun)
    requires |paths| == |CONSOLE_PATHS| && |streams| == STANDARD_STREAMS
    requires forall i :: 0 <= i < |paths| ==> |paths[i]| == |FLAG_ORDER|
    ensures var found := GetConsoleFd(paths, streams);
      && (found.result.Err? ==> r == ChvtRun(found.closed, [], Fail(found.result.error)))
      && (found.result.Ok? ==>
            var c := found.result.value;
            && r.closed == found.closed + Release(c)
            && (o.activateRet < 0 ==> r.calls == [VtActivate(c.fd, tty)] && r.result == Fail(Activate(o.activateErrno)))
            && (o.activateRet >= 0 ==> r.calls == [VtActivate(c.fd, tty), VtWaitActive(c.fd, tty)])
            && (o.activateRet >= 0 && o.waitRet < 0 ==> r.result == Fail(WaitActive(o.waitErrno)))
            && (r.result.Pass? <==> o.activateRet >= 0 && o.waitRet >= 0))
  {
    var found := GetConsoleFd(paths, streams);
    match found.result
    case Err(e) => ChvtRun(found.closed, [], Fail(e))
    case Ok(c) =>
      var closed := found.closed + Release(c);
      if o.activateRet < 0 then ChvtRun(closed, [VtActivate(c.fd, tty)], Fail(Activate(o.activateErrno)))
      else if o.waitRet < 0 then
        ChvtRun(closed, [VtActivate(c.fd, tty), VtWaitActive(c.fd, tty)], Fail(WaitActive(o.waitErrno)))
      else ChvtRun(closed, [VtActivate(c.fd, tty), VtWaitActive(c.fd, tty)], Pass)
  }

  /**
   * A standard stream is never closed unless an `open` itself returned its
   * number: every descriptor closed was handed out by `open`.
   */
  lemma {:induction false} ClosesOnlyOpened(tty: int, paths: seq<seq<OpenAnswer>>, streams: seq<KbProbe>, o: VtOracle)
    requires |paths| == |CONSOLE_PATHS| && |streams| == STANDARD_STREAMS
    requires forall i :: 0 <= i < |paths| ==> |paths[i]| == |FLAG_ORDER|
    ensures forall fd :: fd in ChangeVt(tty, paths, streams, o).closed ==> OpenedSomewhere(paths, fd)
  {
    PathsCloseOnlyOpened(paths, 0, streams);
    var found := GetConsoleFd(paths, streams);
    if found.result.Ok? && found.result.value.Owned? {
      var i :| 0 <= i < |paths| && OpenAConsole(paths[i]).result == Ok(found.result.value.fd);
      OpenResultWasOpened(paths[i]);
    }
  }

  /** Some open of some path returned `fd`. */
  ghost predicate OpenedSomewhere(paths: seq<seq<OpenAnswer>>, fd: nat) {
    exists i, j :: 0 <= i < |paths| && 0 <= j < |paths[i]| && paths[i][j].Opened? && paths[i][j].fd == fd
  }

  lemma OpenResultWasOpened(answers: seq<OpenAnswer>)
    requires |answers| == |FLAG_ORDER|
    ensures var r := OpenAConsole(answers);
      (r.result.Ok? ==> exists j :: 0 <= j < |answers| && answers[j].Opened? && answers[j].fd == r.result.value)
      && forall fd :: fd in r.closed ==> exists j :: 0 <= j < |answers| && answers[j].Opened? && answers[j].fd == fd
  {
    var r := OpenAConsole(answers);
    var j := |r.tried| - 1;
    if r.result.Ok? {
      assert answers[j].Opened? && answers[j].fd == r.result.value;
    }
    forall fd | fd in r.closed
      ensures exists j :: 0 <= j < |answers| && answers[j].Opened? && answers[j].fd == fd
    {
      assert answers[j].Opened? && answers[j].fd == fd;
    }
  }

  lemma {:induction false} PathsCloseOnlyOpened(paths: seq<seq<OpenAnswer>>, i: nat, streams: seq<KbProbe>)
    requires i <= |paths| && |streams| == STANDARD_STREAMS
    requires forall k :: 0 <= k < |paths| ==> |paths[k]| == |FLAG_ORDER|
    ensures forall fd :: fd in PathsFrom(OpenAll(paths), i, streams).closed ==> OpenedSomewhere(paths, fd)
    decreases |paths| - i
  {
    if i < |paths| {
      OpenResultWasOpened(paths[i]);
      PathsCloseOnlyOpened(paths, i + 1, streams);
      var run := OpenAConsole(paths[i]);
      forall fd | fd in run.closed
        ensures OpenedSomewhere(paths, fd)
      {
        var j :| 0 <= j < |paths[i]| && paths[i][j].Opened? && paths[i][j].fd == fd;
      }
    }
  }
}
