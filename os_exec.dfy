/**
 * The operating-system collaborators the server calls: `os.Stat`, and
 * subprocesses built with `os/exec`. None of these is executed by the model;
 * file systems and processes are oracles passed in as values.
 */
module Os {
  import opened Wrappers

  /** The two kinds of system error the server distinguishes (`os.IsNotExist`). */
  datatype ErrKind = NotExist | OtherError

  /** The result of one call that may fail. */
  datatype Outcome = Ok | Err(kind: ErrKind)

  /** What `os.Stat` reports; `modTime` is already in `http.TimeFormat`. */
  datatype StatResult = Stat(size: nat, modTime: string) | StatFailed(kind: ErrKind)

  /** `os.Stat` as an oracle from absolute path to result. */
  type FileSystem = string -> StatResult

  /**
   * `exec.Cmd.Env`: None is a nil slice, so the command inherits the
   * server's environment; Some(vars) is exactly those variables, and an
   * empty Some gives the command an empty environment.
   */
  type Environ = Option<seq<string>>

  /** The configuration of a command at the moment it is started. */
  datatype CommandSpec = CommandSpec(path: string, args: seq<string>, dir: string, setpgid: bool, env: Environ)

  /**
   * How one subprocess behaves, call by call: obtaining its stdin and stdout
   * pipes, starting it, copying the request body into it, the bytes it
   * writes to stdout and whether copying them out succeeds, waiting for it,
   * and the result of `cmd.Output()` (start, capture stdout, wait).
   */
  datatype Process = Process(
    stdinPipe: Outcome,
    stdoutPipe: Outcome,
    start: Outcome,
    copyIn: Outcome,
    stdout: string,
    copyOut: Outcome,
    wait: Outcome,
    output: Result<string, ErrKind>)

  /** What each command would do if started. */
  type Processes = CommandSpec -> Process

  /**
   * `exec.Cmd`: the fields the server sets before starting a command.
   * `args` are the arguments after the program name.
   */
  class Cmd {
    var path: string
    var args: seq<string>
    var dir: string
    var setpgid: bool
    var env: Environ

    /** exec.Command(name, args...) */
    constructor (name: string, arguments: seq<string>)
      ensures path == name && args == arguments
      ensures dir == "" && !setpgid && env == None
    {
      path := name;
      args := arguments;
      dir := "";
      setpgid := false;
      env := None;
    }

    function Spec(): (s: CommandSpec)
      reads this
      ensures s.path == path && s.args == args && s.dir == dir && s.setpgid == setpgid && s.env == env
    {
      CommandSpec(path, args, dir, setpgid, env)
    }

    method SetEnv(e: Environ)
      modifies this
      ensures env == e
      ensures path == old(path) && args == old(args) && dir == old(dir) && setpgid == old(setpgid)
    {
      env := e;
    }
  }
}
