/**
 * The older snapshot's command builder (no process group) and its two
 * canned git invocations.
 */
module TransferGit {
  import opened Wrappers
  import opened Os
  import opened GitRepo

  /** exec.Command(binPath, args...) run in the repository directory. */
  method GitCommand(g: Git, repoPath: string, args: seq<string>) returns (cmd: Cmd)
    ensures fresh(cmd)
    ensures cmd.Spec() == CommandSpec(g.binPath, args, GetAbsolutePath(g, repoPath), false, None)
  {
    cmd := new Cmd(g.binPath, args);
    cmd.dir := GetAbsolutePath(g, repoPath);
  }

  /** The advertisement git prints for `serviceName`, or the error Output() reports. */
  method GetInfoRefs(g: Git, procs: Processes, repoPath: string, serviceName: string) returns (r: Result<string, ErrKind>)
    ensures r == procs(CommandSpec(g.binPath, InfoRefsArgs(serviceName), GetAbsolutePath(g, repoPath), false, None)).output
  {
    var cmd := GitCommand(g, repoPath, InfoRefsArgs(serviceName));
    r := procs(cmd.Spec()).output;
  }

  /** Runs `git update-server-info` in the repository. */
  method UpdateServerInfo(g: Git, procs: Processes, repoPath: string) returns (r: Result<string, ErrKind>)
    ensures r == procs(CommandSpec(g.binPath, ["update-server-info"], GetAbsolutePath(g, repoPath), false, None)).output
  {
    var cmd := GitCommand(g, repoPath, ["update-server-info"]);
    r := procs(cmd.Spec()).output;
  }
}
