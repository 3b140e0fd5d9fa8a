/**
 * The newer snapshot's archive add-on: a URL pattern that captures the
 * `/archive/<tree>.zip|tar` tail, and a handler that streams `git archive`
 * to the client. Unlike the older add-on it renders its own error pages and
 * never calls WriteHeader, so the status is fixed by the first write.
 */
module ArchiveAddon {
  import opened Wrappers
  import opened Os
  import opened Http
  import opened GoStrings
  import opened GitRepo
  import opened PathPatterns
  import opened ArchiveNaming
  import opened XferContext
  import Response
  import XferRenderer
  import XferGit
  import XferServer

  /** The method the add-on's route is registered with. */
  const Method := "GET"

  /**
   * Pattern: group 1 of `.*?(/archive/.*?\.(zip|tar))$`, the archive tail
   * at the earliest offset where it matches the rest of the path, or "" when
   * it matches nowhere.
   */
  function Pattern(path: string): (tail: string)
    ensures tail == "" <==> FirstTail(Archive, path) == -1
    ensures tail != "" ==> tail == path[FirstTail(Archive, path)..] && HasSuffix(path, tail)
    ensures tail != "" ==> HasPrefix(tail, ArchiveDir) && (HasSuffix(tail, ".zip") || HasSuffix(tail, ".tar"))
  {
    match TailGroupMatch(Archive, path)
    case None => ""
    case Some(m) =>
      var i := FirstTail(Archive, path);
      assert TailAt(Archive, path, i);
      assert path[|path| - |path[i..]|..] == path[i..];
      m[1]
  }

  /** The lazy prefix makes the earliest `/archive/` win: a tail matching at `i` and nowhere before is the capture. */
  lemma PatternEarliest(path: string, i: nat)
    requires i <= |path| && TailAt(Archive, path, i)
    requires forall j :: 0 <= j < i ==> !TailAt(Archive, path, j)
    ensures Pattern(path) == path[i..]
  {
    FirstTailIs(Archive, path, i);
  }

  /**
   * Archive: derive the names (a file name without a dot panics), then pipe
   * and start `git archive` in its own process group, rendering 500 on
   * failure; then the download headers and the copy; a failed copy renders
   * 500, and so does a failed wait.
   */
  function ArchiveSteps(g: Git, procs: Processes, f: ContextFields): seq<Step> {
    match Derive(f.repoPath, f.filePath)
    case None => [Panicked]
    case Some(n) =>
      var cmd := ArchiveCommand(g, f.repoPath, n, true);
      ArchiveProcessSteps(cmd, n.fileName, procs(cmd))
  }

  /** From obtaining the stdout pipe of the archive command on. */
  function ArchiveProcessSteps(cmd: CommandSpec, fileName: string, p: Process): seq<Step> {
    if p.stdoutPipe.Err? || p.start.Err? then XferRenderer.ErrorPage(500)
    else [CommandStarted(cmd)] + DownloadHeaderSteps(fileName) + Response.CopySteps(p.stdout) + CopiedSteps(p)
  }

  /** After the copy: Internal Server Error if it failed, else the wait, and Internal Server Error if that failed. */
  function CopiedSteps(p: Process): seq<Step> {
    if p.copyOut.Err? then XferRenderer.ErrorPage(500)
    else [CommandWaited(p.wait.Ok?)] + if p.wait.Err? then XferRenderer.ErrorPage(500) else []
  }

  /** The command and the download headers send nothing: the status is still open and the body empty. */
  lemma DownloadHeadSendsNothing(cmd: CommandSpec, fileName: string)
    ensures StatusOf([CommandStarted(cmd)] + DownloadHeaderSteps(fileName)) == Unwritten
    ensures BodyOf([CommandStarted(cmd)] + DownloadHeaderSteps(fileName)) == ""
  {
    var head := [CommandStarted(cmd)] + DownloadHeaderSteps(fileName);
    UnwrittenIffNothingSent(head);
    assert head[1..][1..][1..][1..] == [];
    assert BodyOf(head[1..][1..][1..]) == "";
    assert BodyOf(head[1..][1..]) == "";
    assert BodyOf(head[1..]) == "";
  }

  /**
   * A failure to obtain the pipe or to start git, on a response nothing was
   * sent on yet, renders 500 with the standard text and runs nothing.
   */
  lemma StartFailureRenders500(before: seq<Step>, cmd: CommandSpec, fileName: string, p: Process)
    requires StatusOf(before) == Unwritten
    requires p.stdoutPipe.Err? || p.start.Err?
    ensures StatusOf(before + ArchiveProcessSteps(cmd, fileName, p)) == Sent(500)
    ensures BodyOf(before + ArchiveProcessSteps(cmd, fileName, p)) == BodyOf(before) + "Internal Server Error"
    ensures CommandStarted(cmd) !in ArchiveProcessSteps(cmd, fileName, p)
  {
    XferRenderer.ErrorPageOutcome(map[], before, 500);
  }

  /**
   * With no WriteHeader in the handler, the archive's bytes fix the status:
   * 200 and the body is exactly git's output once non-empty, while an empty
   * output leaves the status to net/http. Whatever goes wrong after output
   * was sent only appends the status text: the 500 arrives too late.
   */
  lemma StartedOutcome(before: seq<Step>, cmd: CommandSpec, fileName: string, p: Process)
    requires StatusOf(before) == Unwritten
    requires p.stdoutPipe.Ok? && p.start.Ok?
    ensures var after := before + ArchiveProcessSteps(cmd, fileName, p);
      && (p.stdout != "" ==> StatusOf(after) == Sent(200))
      && (p.stdout != "" && p.copyOut.Err? ==> BodyOf(after) == BodyOf(before) + p.stdout + "Internal Server Error")
      && (p.copyOut.Ok? && p.wait.Ok? ==> BodyOf(after) == BodyOf(before) + p.stdout)
      && (p.stdout == "" && p.copyOut.Ok? && p.wait.Ok? ==> StatusOf(after) == Unwritten)
      && (p.stdout == "" && (p.copyOut.Err? || p.wait.Err?) ==> StatusOf(after) == Sent(500))
  {
    UnwrittenPrefix(before, ArchiveProcessSteps(cmd, fileName, p));
    StartedSteps(cmd, fileName, p);
    CopyThenCopied(p);
    ConcatAssoc(BodyOf(before), p.stdout, "Internal Server Error");
  }

  /** StartedOutcome on the handler's own steps, with nothing written before them. */
  lemma StartedSteps(cmd: CommandSpec, fileName: string, p: Process)
    requires p.stdoutPipe.Ok? && p.start.Ok?
    ensures var steps := ArchiveProcessSteps(cmd, fileName, p);
      && StatusOf(steps) == StatusOf(Response.CopySteps(p.stdout) + CopiedSteps(p))
      && BodyOf(steps) == BodyOf(Response.CopySteps(p.stdout) + CopiedSteps(p))
  {
    var head := [CommandStarted(cmd)] + DownloadHeaderSteps(fileName);
    var rest := Response.CopySteps(p.stdout) + CopiedSteps(p);
    DownloadHeadSendsNothing(cmd, fileName);
    assert ArchiveProcessSteps(cmd, fileName, p) == head + rest;
    StatusOfAppend(head, rest);
    BodyOfAppend(head, rest);
  }

  /** The copy's writes followed by the steps after the copy. */
  lemma CopyThenCopied(p: Process)
    ensures var rest := Response.CopySteps(p.stdout) + CopiedSteps(p);
      && (p.stdout != "" ==> StatusOf(rest) == Sent(200))
      && (p.stdout != "" && p.copyOut.Err? ==> BodyOf(rest) == p.stdout + "Internal Server Error")
      && (p.copyOut.Ok? && p.wait.Ok? ==> BodyOf(rest) == p.stdout)
      && (p.stdout == "" && p.copyOut.Ok? && p.wait.Ok? ==> StatusOf(rest) == Unwritten)
      && (p.stdout == "" && (p.copyOut.Err? || p.wait.Err?) ==> StatusOf(rest) == Sent(500))
  {
    var copy := Response.CopySteps(p.stdout);
    var tail := CopiedSteps(p);
    StatusOfAppend(copy, tail);
    BodyOfAppend(copy, tail);
    CopiedOutcome(p);
  }

  /** The steps after the copy: a failure writes the 500 page; a clean wait writes nothing. */
  lemma CopiedOutcome(p: Process)
    ensures p.copyOut.Err? ==> BodyOf(CopiedSteps(p)) == "Internal Server Error" && StatusOf(CopiedSteps(p)) == Sent(500)
    ensures p.copyOut.Ok? && p.wait.Err? ==> BodyOf(CopiedSteps(p)) == "Internal Server Error" && StatusOf(CopiedSteps(p)) == Sent(500)
    ensures p.copyOut.Ok? && p.wait.Ok? ==> BodyOf(CopiedSteps(p)) == "" && StatusOf(CopiedSteps(p)) == Unwritten
  {
    if p.copyOut.Err? {
      XferRenderer.ErrorPageOutcome(map[], [], 500);
    } else {
      var steps := CopiedSteps(p);
      assert steps[0] == CommandWaited(p.wait.Ok?);
      if p.wait.Err? {
        XferRenderer.ErrorPageOutcome(map[], [], 500);
        assert steps[1..] == [] + XferRenderer.ErrorPage(500);
      } else {
        assert steps[1..] == [];
      }
    }
  }

  /**
   * The client receives the download header: Content-Type
   * application/octet-stream, and Content-Disposition and
   * Content-Transfer-Encoding added after whatever they held.
   */
  lemma DownloadHeaderOnWire(h: Header, cmd: CommandSpec, fileName: string, p: Process)
    requires p.stdoutPipe.Ok? && p.start.Ok? && p.stdout != ""
    ensures var wire := WireHeader(h, ArchiveProcessSteps(cmd, fileName, p));
      && wire.Keys == h.Keys + {"Content-Type", "Content-Disposition", "Content-Transfer-Encoding"}
      && wire["Content-Type"] == ["application/octet-stream"]
      && wire["Content-Disposition"] == (if "Content-Disposition" in h then h["Content-Disposition"] else []) + [ContentDisposition(fileName)]
      && wire["Content-Transfer-Encoding"] == (if "Content-Transfer-Encoding" in h then h["Content-Transfer-Encoding"] else []) + ["binary"]
  {
    var head := [CommandStarted(cmd)] + DownloadHeaderSteps(fileName);
    var rest := Response.CopySteps(p.stdout) + CopiedSteps(p);
    DownloadHeadSendsNothing(cmd, fileName);
    assert ArchiveProcessSteps(cmd, fileName, p) == head + rest;
    WireHeaderAppend(h, head, rest);
    assert SendsHeader(rest[0]);
    DownloadHeaders(h, cmd, fileName);
  }

  /** The header map after the command and the download headers. */
  lemma DownloadHeaders(h: Header, cmd: CommandSpec, fileName: string)
    ensures var m := HeaderAfter(h, [CommandStarted(cmd)] + DownloadHeaderSteps(fileName));
      && m.Keys == h.Keys + {"Content-Type", "Content-Disposition", "Content-Transfer-Encoding"}
      && m["Content-Type"] == ["application/octet-stream"]
      && m["Content-Disposition"] == (if "Content-Disposition" in h then h["Content-Disposition"] else []) + [ContentDisposition(fileName)]
      && m["Content-Transfer-Encoding"] == (if "Content-Transfer-Encoding" in h then h["Content-Transfer-Encoding"] else []) + ["binary"]
  {
    var head := [CommandStarted(cmd)] + DownloadHeaderSteps(fileName);
    var h1 := h["Content-Type" := ["application/octet-stream"]];
    var h2 := ApplyHeader(h1, head[2]);
    var h3 := ApplyHeader(h2, head[3]);
    assert head[1..][1..][1..][1..] == [];
    assert HeaderAfter(h, head) == HeaderAfter(h, head[1..]) == HeaderAfter(h1, head[1..][1..]);
    assert HeaderAfter(h1, head[1..][1..]) == HeaderAfter(h2, head[1..][1..][1..]) == h3;
  }

  /** The add-on's handler type, wrapping the newer snapshot's server. */
  class ArchiveXfer {
    const ghx: XferServer.GitHTTPXfer

    /** New */
    constructor (server: XferServer.GitHTTPXfer)
      ensures ghx == server
    {
      ghx := server;
    }

    method Archive(ctx: Context, procs: Processes)
      requires ctx.response.writer.Valid()
      modifies ctx.response.writer
      ensures ctx.response.writer.Valid()
      ensures ctx.response.writer.log == old(ctx.response.writer.log) + ArchiveSteps(ghx.git, procs, ctx.Fields())
    {
      var res, repoPath, filePath := ctx.response, ctx.repoPath, ctx.filePath;
      ghost var steps := ArchiveSteps(ghx.git, procs, ctx.Fields());
      var derived := Derive(repoPath, filePath);
      if derived.None? {
        res.writer.Record(Panicked);
        return;
      }
      var n := derived.value;
      var cmd := XferGit.GitCommand(ghx.git, repoPath, ArchiveArgs(n));
      var spec := cmd.Spec();
      assert spec == ArchiveCommand(ghx.git, repoPath, n, true);
      assert steps == ArchiveProcessSteps(spec, n.fileName, procs(spec));
      StreamArchive(res, spec, n.fileName, procs(spec));
    }

    /** Pipe and start, the headers (without WriteHeader), the copy and the wait, with a 500 page on each failure. */
    static method StreamArchive(res: Response.Response, cmd: CommandSpec, fileName: string, p: Process)
      requires res.writer.Valid()
      modifies res.writer
      ensures res.writer.Valid()
      ensures res.writer.log == old(res.writer.log) + ArchiveProcessSteps(cmd, fileName, p)
    {
      if p.stdoutPipe.Err? {
        XferRenderer.RenderInternalServerError(res.writer);
        return;
      }
      if p.start.Err? {
        XferRenderer.RenderInternalServerError(res.writer);
        return;
      }
      ghost var log0 := res.writer.log;
      res.writer.Record(CommandStarted(cmd));
      res.SetContentType("application/octet-stream");
      res.writer.Add("Content-Disposition", ContentDisposition(fileName));
      res.writer.Add("Content-Transfer-Encoding", "binary");
      ghost var head := [CommandStarted(cmd)] + DownloadHeaderSteps(fileName);
      assert res.writer.log == log0 + head;
      res.Copy(p.stdout);
      ghost var copied := head + Response.CopySteps(p.stdout);
      LogAssoc(log0, head, Response.CopySteps(p.stdout));
      FinishArchive(res, p);
      LogAssoc(log0, copied, CopiedSteps(p));
    }

    /** The end of Archive, once the output was copied. */
    static method FinishArchive(res: Response.Response, p: Process)
      requires res.writer.Valid()
      modifies res.writer
      ensures res.writer.Valid()
      ensures res.writer.log == old(res.writer.log) + CopiedSteps(p)
    {
      if p.copyOut.Err? {
        XferRenderer.RenderInternalServerError(res.writer);
        return;
      }
      res.writer.Record(CommandWaited(p.wait.Ok?));
      if p.wait.Err? {
        XferRenderer.RenderInternalServerError(res.writer);
      }
    }
  }
}
