/** The newer snapshot's command builder: every git subprocess runs in its own process group. */
module XferGit {
  import opened Wrappers
  import opened Os
  import opened GitRepo

  /** exec.Command(binPath, args...) run in the repository directory, with Setpgid. */
  method GitCommand(g: Git, repoPath: string, args: seq<string>) returns (cmd: Cmd)
    ensures fresh(cmd)
    ensures cmd.Spec() == CommandSpec(g.binPath, args, GetAbsolutePath(g, repoPath), true, None)
  {
    cmd := new Cmd(g.binPath, args);
    cmd.dir := GetAbsolutePath(g, repoPath);
    cmd.setpgid := true;
  }
}
