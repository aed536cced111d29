/**
 * The environment container: the set of variables and the working directory
 * that a spawned session child receives, kept apart from the login manager's
 * own process environment.
 */
module EnvContainer {
  import opened Wrappers

  /** The variables intended for the child and the directory it starts in. */
  datatype Container = Container(vars: map<string, string>, workingDir: string)

  /**
   * The part of a child-process command that the container influences.
   * `clearEnv` records whether the inherited environment was discarded
   * before `env` was applied; `cwd` is None until a directory is chosen.
   */
  datatype Command = Command(
    program: string,
    args: seq<string>,
    clearEnv: bool,
    env: map<string, string>,
    cwd: Option<string>)

  /** A command for `program` as freshly created: no arguments, inherited environment. */
  function NewCommand(program: string): (c: Command)
    ensures c.program == program && c.args == [] && !c.clearEnv && c.env == map[] && c.cwd == None
  {
    Command(program, [], false, map[], None)
  }

  /** Appends one argument to a command. */
  function Arg(c: Command, a: string): (r: Command)
    ensures r.args == c.args + [a]
    ensures r.program == c.program && r.env == c.env && r.clearEnv == c.clearEnv && r.cwd == c.cwd
  {
    c.(args := c.args + [a])
  }

  /** All keys other than `k` are bound identically in `a` and `b`. */
  ghost predicate SameExcept(a: map<string, string>, b: map<string, string>, k: string)
  {
    forall k' :: k' != k ==> (k' in a <==> k' in b) && (k' in a ==> a[k'] == b[k'])
  }

  /** Builds a container from the inherited environment; the directory falls back to "/". */
  function New(inherited: map<string, string>, currentDir: Option<string>): (c: Container)
    ensures c.vars == inherited
    ensures currentDir.Some? ==> c.workingDir == currentDir.value
    ensures currentDir.None? ==> c.workingDir == "/"
  {
    Container(inherited, currentDir.GetOr("/"))
  }

  /** Sets `k` to `v`, overwriting any previous binding. */
  function Set(c: Container, k: string, v: string): (r: Container)
    ensures k in r.vars && r.vars[k] == v
    ensures SameExcept(r.vars, c.vars, k)
    ensures r.workingDir == c.workingDir
  {
    c.(vars := c.vars[k := v])
  }

  /** Sets `k` to `v` only when `k` is not bound yet; an existing value wins. */
  function SetOrPreserve(c: Container, k: string, v: string): (r: Container)
    ensures k in r.vars
    ensures k in c.vars ==> r.vars[k] == c.vars[k]
    ensures k !in c.vars ==> r.vars[k] == v
    ensures SameExcept(r.vars, c.vars, k)
    ensures r.workingDir == c.workingDir
  {
    if k in c.vars then c else Set(c, k, v)
  }

  /** The older name of `SetOrPreserve`; it delegates to it unchanged. */
  function SetOrOwn(c: Container, k: string, v: string): (r: Container)
    ensures k in r.vars
    ensures k in c.vars ==> r.vars[k] == c.vars[k]
    ensures k !in c.vars ==> r.vars[k] == v
  {
    SetOrPreserve(c, k, v)
  }

  /** Removes the binding of `k`, if any. */
  function RemoveVar(c: Container, k: string): (r: Container)
    ensures k !in r.vars
    ensures SameExcept(r.vars, c.vars, k)
    ensures r.workingDir == c.workingDir
  {
    c.(vars := c.vars - {k})
  }

  /** Chooses the directory the child starts in. */
  function SetCurrentDir(c: Container, dir: string): (r: Container)
    ensures r.workingDir == dir && r.vars == c.vars
  {
    c.(workingDir := dir)
  }

  /**
   * Applies the container to a command: the command's environment is cleared
   * and then every variable is added, in whatever order the underlying hash map
   * enumerates its keys (`order`), and the working directory is set.
   */
  method ApplyToCommand(c: Container, cmd: Command, order: seq<string>) returns (r: Command)
    requires forall i, j :: 0 <= i < j < |order| ==> order[i] != order[j]
    requires forall k :: k in c.vars <==> k in order
    ensures r.clearEnv
    ensures r.env == c.vars
    ensures r.cwd == Some(c.workingDir)
    ensures r.program == cmd.program && r.args == cmd.args
  {
    r := cmd.(clearEnv := true, env := map[]);
    var i := 0;
    while i < |order|
      invariant 0 <= i <= |order|
      invariant r.clearEnv && r.program == cmd.program && r.args == cmd.args
      invariant forall k :: k in r.env <==> k in order[..i]
      invariant forall k :: k in r.env ==> k in c.vars && r.env[k] == c.vars[k]
    {
      var k := order[i];
      r := r.(env := r.env[k := c.vars[k]]);
      i := i + 1;
    }
    assert order[..i] == order;
    r := r.(cwd := Some(c.workingDir));
  }

  /** Removing a key just set leaves the same variables as removing it from the start. */
  lemma RemoveAfterSet(c: Container, k: string, v: string)
    ensures RemoveVar(Set(c, k, v), k) == RemoveVar(c, k)
  {
    assert RemoveVar(Set(c, k, v), k).vars == RemoveVar(c, k).vars;
  }

  /** Setting-or-preserving twice is the same as doing it once, whatever the second value. */
  lemma SetOrPreserveIdempotent(c: Container, k: string, v: string, w: string)
    ensures SetOrPreserve(SetOrPreserve(c, k, v), k, w) == SetOrPreserve(c, k, v)
  {
  }

  /** `SetOrOwn` and `SetOrPreserve` are the same operation. */
  lemma SetOrOwnIsSetOrPreserve(c: Container, k: string, v: string)
    ensures SetOrOwn(c, k, v) == SetOrPreserve(c, k, v)
  {
  }

  /** Removing an absent key changes nothing. */
  lemma RemoveAbsentIsNoOp(c: Container, k: string)
    requires k !in c.vars
    ensures RemoveVar(c, k) == c
  {
    assert c.vars - {k} == c.vars;
  }
}
