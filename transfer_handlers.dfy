/**
 * What each handler of the older snapshot does: the ordered steps it leaves
 * in the writer's log, and the error it returns to ServeHTTP. Unlike the
 * newer snapshot, these handlers render nothing on failure; they return the
 * error and ServeHTTP chooses the page.
 */
module TransferHandlers {
  import opened Wrappers
  import opened Os
  import opened Http
  import opened GitRepo
  import opened RouteErrors
  import opened XferSupport
  import opened ArchiveNaming
  import Response
  import XferHandlers

  /** The errors a handler returns: the access error, or a system error classified by os.IsNotExist. */
  datatype HandlerError = NoAccess(e: NoAccessError) | SysError(kind: ErrKind)

  /** The steps a handler took and the error it returned (None for nil). */
  datatype Handled = Handled(steps: seq<Step>, err: Option<HandlerError>)

  /** The handlers New registers, and one an embedding program adds, with the error it returns. */
  datatype Handler =
    | ServiceRpcUpload | ServiceRpcReceive | GetInfoRefs
    | GetTextFile | GetInfoPacks | GetLooseObject | GetPackFile | GetIdxFile
    | GetArchive
    | Custom(name: string, result: Option<HandlerError>)

  /** Steps taken before a part of a handler that produced `h`. */
  function After(prefix: seq<Step>, h: Handled): Handled {
    Handled(prefix + h.steps, h.err)
  }

  /** An early return of a system error, with nothing written. */
  function Fail(k: ErrKind): Handled {
    Handled([], Some(SysError(k)))
  }

  /** The command serviceRpc starts: exec.Command in the repository directory, no process group, inherited environment. */
  function RpcCommand(g: Git, repoPath: string, rpc: string): CommandSpec {
    CommandSpec(g.binPath, RPCArgs(rpc), GetAbsolutePath(g, repoPath), false, None)
  }

  /**
   * serviceRpc: the access check, the optional gzip reader, the Content-Type,
   * then the pipes and the start, each returning its error; after a start
   * the body is written to stdin, stdin closed, the output copied and the
   * command waited for, ignoring every error.
   */
  function ServiceRpcResult(g: Git, w: XferHandlers.World, req: Request, repoPath: string, rpc: string): Handled {
    if !HasAccess(g, req, rpc, true) then Handled([], Some(NoAccess(NoAccessError(GetAbsolutePath(g, repoPath)))))
    else if HeaderGet(req, "Content-Encoding") == "gzip" && !w.gzipOk then Fail(OtherError)
    else
      var cmd := RpcCommand(g, repoPath, rpc);
      After([HeaderSet("Content-Type", ResultContentType(rpc))], RpcProcessResult(cmd, w.procs(cmd)))
  }

  /** From obtaining the pipes of `cmd` on. */
  function RpcProcessResult(cmd: CommandSpec, p: Process): Handled {
    if p.stdinPipe.Err? then Fail(p.stdinPipe.kind)
    else if p.stdoutPipe.Err? then Fail(p.stdoutPipe.kind)
    else if p.start.Err? then Fail(p.start.kind)
    else Handled([CommandStarted(cmd), StdinCopied(p.copyIn.Ok?), StdinClosed]
                 + Response.CopySteps(p.stdout) + [CommandWaited(p.wait.Ok?)], None)
  }

  /** The commands getInfoRefs runs. */
  function UpdateServerInfoCommand(g: Git, repoPath: string): CommandSpec {
    CommandSpec(g.binPath, ["update-server-info"], GetAbsolutePath(g, repoPath), false, None)
  }

  function AdvertiseCommand(g: Git, repoPath: string, svc: string): CommandSpec {
    CommandSpec(g.binPath, InfoRefsArgs(svc), GetAbsolutePath(g, repoPath), false, None)
  }

  /**
   * getInfoRefs: without smart access, update-server-info (its result
   * ignored), no-cache headers and info/refs as a text file; otherwise the
   * advertising command, whose failure is returned, then the framed refs.
   */
  function InfoRefsResult(g: Git, w: XferHandlers.World, req: Request, repoPath: string, filePath: string): Handled {
    var svc := ServiceType(req);
    if !HasAccess(g, req, svc, false) then
      After([CommandRan(UpdateServerInfoCommand(g, repoPath))] + Response.NoCacheSteps(),
            SendFileResult(g, w.fs, repoPath, filePath, "text/plain; charset=utf-8"))
    else AdvertiseResult(AdvertiseCommand(g, repoPath, svc), svc, w.procs(AdvertiseCommand(g, repoPath, svc)).output)
  }

  /** The advertising command `cmd` ran; its error is returned, its output framed. */
  function AdvertiseResult(cmd: CommandSpec, svc: string, output: Result<string, ErrKind>): Handled {
    match output
    case Failure(k) => Handled([CommandRan(cmd)], Some(SysError(k)))
    case Success(refs) => Handled([CommandRan(cmd)] + XferHandlers.AdvertisedSteps(svc, refs), None)
  }

  /** sendFile: the stat error is returned; otherwise the three headers, then http.ServeFile. */
  function SendFileResult(g: Git, fs: FileSystem, repoPath: string, filePath: string, contentType: string): Handled {
    match GetRequestFileInfo(g, fs, repoPath, filePath)
    case Failure(k) => Fail(k)
    case Success(info) => Handled(XferHandlers.ServedFileSteps(contentType, info), None)
  }

  /** A static handler: its cache headers, then sendFile. */
  function StaticResult(g: Git, fs: FileSystem, repoPath: string, filePath: string, cache: seq<Step>, contentType: string): Handled {
    After(cache, SendFileResult(g, fs, repoPath, filePath, contentType))
  }

  /**
   * getArchive, and the archive add-on's HandlerFunc, which is the same
   * code: derive the names (a file name without a dot panics), then pipe
   * and start `git archive`, returning their errors; then the download
   * headers and status 200, the copy, and the wait, returning their errors.
   */
  function ArchiveResult(g: Git, procs: Processes, repoPath: string, filePath: string): Handled {
    match Derive(repoPath, filePath)
    case None => Handled([Panicked], None)
    case Some(n) =>
      var cmd := ArchiveCommand(g, repoPath, n, false);
      ArchiveProcessResult(cmd, n.fileName, procs(cmd))
  }

  /** From obtaining the stdout pipe of the archive command on. */
  function ArchiveProcessResult(cmd: CommandSpec, fileName: string, p: Process): Handled {
    if p.stdoutPipe.Err? then Fail(p.stdoutPipe.kind)
    else if p.start.Err? then Fail(p.start.kind)
    else
      After([CommandStarted(cmd)] + DownloadHeaderSteps(fileName) + [StatusWritten(200)] + Response.CopySteps(p.stdout),
            ArchiveCopiedResult(p))
  }

  /** After the archive was copied out: the copy error, or the wait and its error. */
  function ArchiveCopiedResult(p: Process): Handled {
    if p.copyOut.Err? then Fail(p.copyOut.kind)
    else Handled([CommandWaited(p.wait.Ok?)], if p.wait.Err? then Some(SysError(p.wait.kind)) else None)
  }

  /** What the handler `h` does with the request, repository path and file path of its context. */
  function HandlerResult(g: Git, w: XferHandlers.World, h: Handler, req: Request, repoPath: string, filePath: string): Handled {
    match h
    case ServiceRpcUpload => ServiceRpcResult(g, w, req, repoPath, UploadPack)
    case ServiceRpcReceive => ServiceRpcResult(g, w, req, repoPath, ReceivePack)
    case GetInfoRefs => InfoRefsResult(g, w, req, repoPath, filePath)
    case GetTextFile => StaticResult(g, w.fs, repoPath, filePath, Response.NoCacheSteps(), "text/plain")
    case GetInfoPacks => StaticResult(g, w.fs, repoPath, filePath, Response.CacheForeverSteps(w.now), "text/plain; charset=utf-8")
    case GetLooseObject => StaticResult(g, w.fs, repoPath, filePath, Response.CacheForeverSteps(w.now), "application/x-git-loose-object")
    case GetPackFile => StaticResult(g, w.fs, repoPath, filePath, Response.CacheForeverSteps(w.now), "application/x-git-packed-objects")
    case GetIdxFile => StaticResult(g, w.fs, repoPath, filePath, Response.CacheForeverSteps(w.now), "application/x-git-packed-objects-toc")
    case GetArchive => ArchiveResult(g, w.procs, repoPath, filePath)
    case Custom(name, result) => Handled([CustomHandlerRan(name)], result)
  }
}
