/**
 * Post-login launch: the session targets, the privilege drop that runs in
 * the forked child before the target is executed, the argument vector for
 * each target, and the discovery of the available session environments.
 *
 * The fork/exec machinery, the three identity syscalls, directory listings,
 * file metadata and desktop-file parsing are oracle inputs.
 */
module PostLogin {
  import opened Wrappers
  import opened EnvContainer
  import Pam

  /** What to launch after a successful login. */
  datatype PostLoginEnvironment = Wayland(scriptPath: string, envName: string) | Shell

  /** The `XDG_SESSION_TYPE` value for a target. */
  function ToXdgType(e: PostLoginEnvironment): (t: string)
    ensures e.Shell? ==> t == "tty"
    ensures e.Wayland? ==> t == "wayland"
  {
    match e
    case Shell => "tty"
    case Wayland(_, _) => "wayland"
  }

  /** The `XDG_CURRENT_DESKTOP` value for a target, if it has one. */
  function ToXdgDesktop(e: PostLoginEnvironment): (d: Option<string>)
    ensures e.Shell? ==> d == None
    ensures e.Wayland? ==> d == Some(e.envName)
  {
    match e
    case Shell => None
    case Wayland(_, name) => Some(name)
  }

  /** A desktop name is reported exactly for the targets whose session type is "wayland". */
  lemma XdgDesktopIffWayland(e: PostLoginEnvironment)
    ensures ToXdgDesktop(e).Some? <==> ToXdgType(e) == "wayland"
    ensures ToXdgDesktop(e).None? <==> ToXdgType(e) == "tty"
  {
  }

  datatype EnvironmentStartError = WaylandStart | TTYStart

  // ---------------------------------------------------------------------------
  // Privilege drop
  // ---------------------------------------------------------------------------

  /** One identity syscall made in the child. */
  datatype DropCall = SetGroups(gids: seq<nat>) | SetGid(gid: nat) | SetUid(uid: nat)

  /** The step of the drop that failed. */
  datatype DropStep = GroupsStep | GidStep | UidStep

  /** What each of the three syscalls returns in the child. */
  datatype DropOracle = DropOracle(groupsOk: bool, gidOk: bool, uidOk: bool)

  /** The three calls the drop is meant to make, in order. */
  function DropPlan(user: Pam.AuthUserInfo): (plan: seq<DropCall>)
    ensures |plan| == 3
    ensures plan[0].SetGroups? && plan[1].SetGid? && plan[2].SetUid?
  {
    [SetGroups(user.allGids), SetGid(user.primaryGid), SetUid(user.uid)]
  }

  function StepOk(o: DropOracle, i: nat): bool
    requires i < 3
  {
    if i == 0 then o.groupsOk else if i == 1 then o.gidOk else o.uidOk
  }

  function StepName(i: nat): DropStep
    requires i < 3
  {
    if i == 0 then GroupsStep else if i == 1 then GidStep else UidStep
  }

  /**
   * The pre-exec hook: set the supplementary groups, then the primary group,
   * then the user id, returning at the first failure.
   */
  function PreExec(user: Pam.AuthUserInfo, o: DropOracle): (r: (seq<DropCall>, Outcome<DropStep>))
    ensures 1 <= |r.0| <= 3 && r.0 == DropPlan(user)[..|r.0|]
    ensures r.0[0] == SetGroups(user.allGids)
    ensures |r.0| >= 2 ==> r.0[1] == SetGid(user.primaryGid)
    ensures |r.0| == 3 ==> r.0[2] == SetUid(user.uid)
    ensures forall i :: 0 <= i < |r.0| - 1 ==> StepOk(o, i)
    ensures r.1.Pass? <==> o.groupsOk && o.gidOk && o.uidOk
    ensures r.1.Pass? ==> |r.0| == 3
    ensures r.1.Fail? ==> !StepOk(o, |r.0| - 1) && r.1.error == StepName(|r.0| - 1)
  {
    var plan := DropPlan(user);
    if !o.groupsOk then (plan[..1], Fail(GroupsStep))
    else if !o.gidOk then (plan[..2], Fail(GidStep))
    else if !o.uidOk then (plan[..3], Fail(UidStep))
    else (plan, Pass)
  }

  /** If step `i` fails, no later step runs and the hook fails. */
  lemma {:induction false} PreExecStopsAtFailure(user: Pam.AuthUserInfo, o: DropOracle, i: nat)
    requires i < 3 && !StepOk(o, i)
    ensures |PreExec(user, o).0| <= i + 1
    ensures PreExec(user, o).1.Fail?
  {
    var r := PreExec(user, o);
    if |r.0| > i + 1 {
      assert !StepOk(o, i);
    }
  }

  // ---------------------------------------------------------------------------
  // Spawning the session
  // ---------------------------------------------------------------------------

  datatype ShellLoginFlag = NoFlag | Short | Long

  /** The configuration values the launch reads. */
  datatype LaunchConfig = LaunchConfig(
    systemShell: string, shellLoginFlag: ShellLoginFlag, doLog: bool, clientLogPath: string)

  /** The spawned child; its process id comes from the operating system. */
  datatype SpawnedEnvironment = WaylandChild(pid: nat) | TtyChild(pid: nat)

  /** How the child's standard streams are set up. */
  datatype Stdio = InheritTerminal | LauncherLog(logPath: Option<string>)

  /** The foreign answers of one spawn: the drop syscalls, whether exec succeeds, the pid. */
  datatype SpawnOracle = SpawnOracle(drop: DropOracle, execOk: bool, pid: nat)

  /** A spawn as it happened: the command built, the syscalls made in the child, and the outcome. */
  datatype SpawnRun = SpawnRun(
    command: Command,
    stdio: Stdio,
    dropCalls: seq<DropCall>,
    targetExecuted: bool,
    result: Result<SpawnedEnvironment, EnvironmentStartError>)

  /** The login-flag argument, if any. */
  function LoginFlagArgs(flag: ShellLoginFlag): (a: seq<string>)
    ensures flag == NoFlag ==> a == []
    ensures flag == Short ==> a == ["-l"]
    ensures flag == Long ==> a == ["--login"]
  {
    match flag
    case NoFlag => []
    case Short => ["-l"]
    case Long => ["--login"]
  }

  /**
   * Spawns a target: the system shell, the optional login flag, "-c", and
   * then the Wayland script or the user's own shell. The environment is
   * applied in the hash map's key order `order`. The privilege drop runs in
   * the child; if it fails the spawn fails and the target never runs.
   */
  method Spawn(e: PostLoginEnvironment, user: Pam.AuthUserInfo, env: Container, config: LaunchConfig,
               order: seq<string>, o: SpawnOracle) returns (run: SpawnRun)
    requires forall i, j :: 0 <= i < j < |order| ==> order[i] != order[j]
    requires forall k :: k in env.vars <==> k in order
    ensures run.command.program == config.systemShell
    ensures run.command.args == LoginFlagArgs(config.shellLoginFlag) + ["-c", if e.Wayland? then e.scriptPath else user.shell]
    ensures run.command.clearEnv && run.command.env == env.vars && run.command.cwd == Some(env.workingDir)
    ensures e.Shell? ==> run.stdio == InheritTerminal
    ensures e.Wayland? ==> run.stdio == LauncherLog(if config.doLog then Some(config.clientLogPath) else None)
    ensures run.dropCalls == PreExec(user, o.drop).0
    ensures run.targetExecuted <==> o.drop.groupsOk && o.drop.gidOk && o.drop.uidOk && o.execOk
    ensures run.targetExecuted ==> run.dropCalls == DropPlan(user)
    ensures run.result.Ok? <==> run.targetExecuted
    ensures run.result.Ok? ==> run.result.value == (if e.Wayland? then WaylandChild(o.pid) else TtyChild(o.pid))
    ensures run.result.Err? ==> run.result.error == (if e.Wayland? then WaylandStart else TTYStart)
  {
    var cmd := NewCommand(config.systemShell);
    var flags := LoginFlagArgs(config.shellLoginFlag);
    if |flags| > 0 {
      cmd := Arg(cmd, flags[0]);
    }
    cmd := ApplyToCommand(env, cmd, order);
    cmd := Arg(cmd, "-c");
    var stdio;
    match e {
      case Wayland(script, _) =>
        cmd := Arg(cmd, script);
        stdio := LauncherLog(if config.doLog then Some(config.clientLogPath) else None);
      case Shell =>
        cmd := Arg(cmd, user.shell);
        stdio := InheritTerminal;
    }
    var (calls, dropped) := PreExec(user, o.drop);
    var executed := dropped.Pass? && o.execOk;
    var result;
    if executed {
      result := Ok(if e.Wayland? then WaylandChild(o.pid) else TtyChild(o.pid));
    } else {
      result := Err(if e.Wayland? then WaylandStart else TTYStart);
    }
    run := SpawnRun(cmd, stdio, calls, executed, result);
  }

  // ---------------------------------------------------------------------------
  // Session discovery
  // ---------------------------------------------------------------------------

  /** A desktop-file value: a string, or something the parser cannot give as one. */
  datatype EntryValue = StringValue(s: string) | NonString

  datatype DesktopGroup = DesktopGroup(name: string, entries: map<string, EntryValue>)

  /** A session file as the reader and the desktop-entry parser see it. */
  datatype DesktopFile = Unreadable | Unparsable | Parsed(groups: seq<DesktopGroup>)

  datatype DesktopError = ReadFailed | ParseFailed | NoDesktopEntryGroup | NoExec | ExecNotString

  /** The first group called `name`. */
  function FindGroup(groups: seq<DesktopGroup>, name: string): (r: Option<DesktopGroup>)
    ensures r.Some? ==> r.value.name == name && r.value in groups
    ensures r.Some? ==> exists i :: (0 <= i < |groups| && groups[i] == r.value
                                     && forall j :: 0 <= j < i ==> groups[j].name != name)
    ensures r.None? <==> forall i :: 0 <= i < |groups| ==> groups[i].name != name
  {
    if |groups| == 0 then None
    else if groups[0].name == name then Some(groups[0])
    else
      var r := FindGroup(groups[1..], name);
      if r.Some? then
        var i :| 0 <= i < |groups[1..]| && groups[1..][i] == r.value
          && forall j :: 0 <= j < i ==> groups[1..][j].name != name;
        assert groups[i + 1] == r.value;
        r
      else
        assert forall i :: 1 <= i < |groups| ==> groups[i] == groups[1..][i - 1];
        r
  }

  /**
   * Reads the "Desktop Entry" group of a session file: Exec must be a
   * string; Name falls back to Exec when it is missing or not a string.
   * The result is (name, exec).
   */
  function ParseDesktopEntry(f: DesktopFile): (r: Result<(string, string), DesktopError>)
    ensures f == Unreadable ==> r == Err(ReadFailed)
    ensures f == Unparsable ==> r == Err(ParseFailed)
    ensures f.Parsed? ==> var g := FindGroup(f.groups, "Desktop Entry");
      && (g.None? ==> r == Err(NoDesktopEntryGroup))
      && (g.Some? && "Exec" !in g.value.entries ==> r == Err(NoExec))
      && (g.Some? && "Exec" in g.value.entries && g.value.entries["Exec"].NonString? ==> r == Err(ExecNotString))
      && (r.Ok? ==> g.Some? && "Exec" in g.value.entries && g.value.entries["Exec"] == StringValue(r.value.1))
      && (r.Ok? ==> var entries := g.value.entries;
            if "Name" in entries && entries["Name"].StringValue? then r.value.0 == entries["Name"].s
            else r.value.0 == r.value.1)
    ensures r.Ok? <==> f.Parsed? && var g := FindGroup(f.groups, "Desktop Entry");
      g.Some? && "Exec" in g.value.entries && g.value.entries["Exec"].StringValue?
  {
    match f
    case Unreadable => Err(ReadFailed)
    case Unparsable => Err(ParseFailed)
    case Parsed(groups) =>
      match FindGroup(groups, "Desktop Entry")
      case None => Err(NoDesktopEntryGroup)
      case Some(g) =>
        if "Exec" !in g.entries then Err(NoExec)
        else match g.entries["Exec"]
          case NonString => Err(ExecNotString)
          case StringValue(exec) =>
            var name := if "Name" in g.entries && g.entries["Name"].StringValue? then g.entries["Name"].s else exec;
            Ok((name, exec))
  }

  /** A directory entry of the scripts directory: mode bits, file name and path (None when unusable). */
  datatype ScriptEntry = ScriptEntry(mode: Option<bv32>, fileName: Option<string>, path: Option<string>)

  /** Any of the three execute bits (octal 111). */
  const EXEC_BITS: bv32 := 0x49

  /** A script is offered when its metadata shows an execute bit and both its name and path are UTF-8. */
  predicate ScriptAccepted(e: ScriptEntry) {
    e.mode.Some? && e.mode.value & EXEC_BITS != 0 && e.fileName.Some? && e.path.Some?
  }

  /** A desktop file is offered when it parses. */
  predicate SessionAccepted(f: DesktopFile) {
    ParseDesktopEntry(f).Ok?
  }

  /** The switcher entry of an accepted script, or None. */
  function ScriptCandidate(e: ScriptEntry): (r: Option<(string, PostLoginEnvironment)>)
    ensures r.Some? <==> ScriptAccepted(e)
    ensures r.Some? ==> r.value == (e.fileName.value, Wayland(e.path.value, e.fileName.value))
  {
    if ScriptAccepted(e) then Some((e.fileName.value, Wayland(e.path.value, e.fileName.value))) else None
  }

  /** The switcher entry of a desktop file that parses: its name and its Exec line, or None. */
  function SessionCandidate(f: DesktopFile): (r: Option<(string, PostLoginEnvironment)>)
    ensures r.Some? <==> SessionAccepted(f)
    ensures r.Some? ==> var (name, exec) := ParseDesktopEntry(f).value; r.value == (name, Wayland(exec, name))
  {
    match ParseDesktopEntry(f)
    case Ok((name, exec)) => Some((name, Wayland(exec, name)))
    case Err(_) => None
  }

  /** The present values of a list of options, in order. */
  function Present<T>(xs: seq<Option<T>>): (r: seq<T>)
    ensures |r| <= |xs|
    ensures forall i :: 0 <= i < |r| ==> exists j :: 0 <= j < |xs| && xs[j] == Some(r[i])
    ensures forall j :: 0 <= j < |xs| && xs[j].Some? ==> xs[j].value in r
    ensures r == [] <==> forall j :: 0 <= j < |xs| ==> xs[j].None?
  {
    if xs == [] then []
    else
      var rest := Present(xs[1..]);
      assert forall j :: 1 <= j < |xs| ==> xs[j] == xs[1..][j - 1];
      if xs[0].Some? then [xs[0].value] + rest else rest
  }

  /** The environments offered by the scripts directory, in listing order. */
  function ScriptEnvs(entries: seq<ScriptEntry>): (r: seq<(string, PostLoginEnvironment)>)
    ensures |r| <= |entries|
    ensures forall i :: 0 <= i < |r| ==> exists j :: 0 <= j < |entries| && ScriptCandidate(entries[j]) == Some(r[i])
    ensures forall j :: 0 <= j < |entries| && ScriptAccepted(entries[j]) ==> ScriptCandidate(entries[j]).value in r
    ensures r == [] <==> forall j :: 0 <= j < |entries| ==> !ScriptAccepted(entries[j])
    ensures Labelled(r)
  {
    var cands := seq(|entries|, j requires 0 <= j < |entries| => ScriptCandidate(entries[j]));
    assert forall j :: 0 <= j < |entries| ==> cands[j] == ScriptCandidate(entries[j]);
    var r := Present(cands);
    r
  }

  /** The environments offered by the Wayland sessions directory, in listing order. */
  function SessionEnvs(files: seq<DesktopFile>): (r: seq<(string, PostLoginEnvironment)>)
    ensures |r| <= |files|
    ensures forall i :: 0 <= i < |r| ==> exists j :: 0 <= j < |files| && SessionCandidate(files[j]) == Some(r[i])
    ensures forall j :: 0 <= j < |files| && SessionAccepted(files[j]) ==> SessionCandidate(files[j]).value in r
    ensures r == [] <==> forall j :: 0 <= j < |files| ==> !SessionAccepted(files[j])
    ensures Labelled(r)
  {
    var cands := seq(|files|, j requires 0 <= j < |files| => SessionCandidate(files[j]));
    assert forall j :: 0 <= j < |files| ==> cands[j] == SessionCandidate(files[j]);
    var r := Present(cands);
    r
  }

  const Terminal: (string, PostLoginEnvironment) := ("Terminal", Shell)

  /** Every listed environment is a Wayland target labelled with its own name. */
  predicate Labelled(r: seq<(string, PostLoginEnvironment)>) {
    forall i :: 0 <= i < |r| ==> r[i].1.Wayland? && r[i].0 == r[i].1.envName
  }

  lemma LabelledConcat(a: seq<(string, PostLoginEnvironment)>, b: seq<(string, PostLoginEnvironment)>)
    requires Labelled(a) && Labelled(b)
    ensures Labelled(a + b)
  {
  }

  /**
   * The list offered by the switcher: the terminal first when configured,
   * then the desktop sessions, then the executable scripts; a directory that
   * cannot be listed (None) contributes nothing, and an empty result falls
   * back to the terminal alone.
   */
  function GetEnvs(includeTtyShell: bool, sessions: Option<seq<DesktopFile>>, scripts: Option<seq<ScriptEntry>>)
    : (r: seq<(string, PostLoginEnvironment)>)
    ensures |r| > 0
    ensures includeTtyShell ==> r[0] == Terminal
    ensures forall i :: 0 <= i < |r| && r[i].1.Shell? ==> i == 0 && r[i] == Terminal
    ensures forall i :: 0 <= i < |r| && r[i].1.Wayland? ==> r[i].0 == r[i].1.envName
    ensures var s := SessionEnvs(sessions.GetOr([])); var x := ScriptEnvs(scripts.GetOr([]));
      var head := if includeTtyShell then [Terminal] else [];
      && (head + (s + x) == [] ==> r == [Terminal])
      && (head + (s + x) != [] ==> r == head + (s + x))
  {
    var s := SessionEnvs(sessions.GetOr([]));
    var x := ScriptEnvs(scripts.GetOr([]));
    LabelledConcat(s, x);
    var found := s + x;
    if includeTtyShell then [Terminal] + found
    else if found == [] then [Terminal]
    else found
  }

  /** Without the terminal option and with nothing found, the terminal is the only choice. */
  lemma GetEnvsFallback(sessions: Option<seq<DesktopFile>>, scripts: Option<seq<ScriptEntry>>)
    requires forall f :: f in sessions.GetOr([]) ==> !SessionAccepted(f)
    requires forall e :: e in scripts.GetOr([]) ==> !ScriptAccepted(e)
    ensures GetEnvs(false, sessions, scripts) == [Terminal]
  {
    var files := sessions.GetOr([]);
    var entries := scripts.GetOr([]);
    assert forall j :: 0 <= j < |files| ==> files[j] in files;
    assert forall j :: 0 <= j < |entries| ==> entries[j] in entries;
  }
}
