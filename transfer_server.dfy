/**
 * The older snapshot's server: the twelve built-in routes, MatchRouting,
 * ServeHTTP with its mapping from handler errors to error pages, and the
 * handlers. Each method is proved to leave in the writer's log exactly the
 * steps, and to return exactly the error, that the functions of
 * TransferHandlers and ServeSteps describe.
 */
module TransferServer {
  import opened Wrappers
  import opened Os
  import opened Http
  import opened GoStrings
  import opened GitRepo
  import opened Routing
  import opened RouteErrors
  import opened PathPatterns
  import opened XferSupport
  import opened ArchiveNaming
  import opened TransferHandlers
  import opened TransferContext
  import Numerals
  import Response
  import TransferRenderer
  import TransferGit
  import XferHandlers
  import XferServer

  type TransferRoute = Route<seq<string>, Handler>

  // The route patterns, `(.*?)T$`, in the order they are declared.
  function ServiceRpcUploadPattern(path: string): Option<seq<string>> { PrefixGroupMatch(Literal("/git-upload-pack"), path) }
  function ServiceRpcReceivePattern(path: string): Option<seq<string>> { PrefixGroupMatch(Literal("/git-receive-pack"), path) }
  function GetInfoRefsPattern(path: string): Option<seq<string>> { PrefixGroupMatch(Literal("/info/refs"), path) }
  function GetHeadPattern(path: string): Option<seq<string>> { PrefixGroupMatch(Literal("/HEAD"), path) }
  function GetAlternatesPattern(path: string): Option<seq<string>> { PrefixGroupMatch(Literal("/objects/info/alternates"), path) }
  function GetHttpAlternatesPattern(path: string): Option<seq<string>> { PrefixGroupMatch(Literal("/objects/info/http-alternates"), path) }
  function GetInfoPacksPattern(path: string): Option<seq<string>> { PrefixGroupMatch(Literal("/objects/info/packs"), path) }
  function GetInfoFilePattern(path: string): Option<seq<string>> { PrefixGroupMatch(InfoFile, path) }
  function GetLooseObjectPattern(path: string): Option<seq<string>> { PrefixGroupMatch(LooseObject, path) }
  function GetPackFilePattern(path: string): Option<seq<string>> { PrefixGroupMatch(PackFile(".pack"), path) }
  function GetIdxFilePattern(path: string): Option<seq<string>> { PrefixGroupMatch(PackFile(".idx"), path) }
  function GetArchivePattern(path: string): Option<seq<string>> { PrefixGroupMatch(Archive, path) }

  /** The route table New builds: twelve routes, the archive route last. */
  function BuiltinRoutes(): seq<TransferRoute> {
    [Route("POST", ServiceRpcUploadPattern, ServiceRpcUpload),
     Route("POST", ServiceRpcReceivePattern, ServiceRpcReceive),
     Route("GET", GetInfoRefsPattern, GetInfoRefs),
     Route("GET", GetHeadPattern, GetTextFile),
     Route("GET", GetAlternatesPattern, GetTextFile),
     Route("GET", GetHttpAlternatesPattern, GetTextFile),
     Route("GET", GetInfoPacksPattern, GetInfoPacks),
     Route("GET", GetInfoFilePattern, GetTextFile),
     Route("GET", GetLooseObjectPattern, GetLooseObject),
     Route("GET", GetPackFilePattern, GetPackFile),
     Route("GET", GetIdxFilePattern, GetIdxFile),
     Route("GET", GetArchivePattern, GetArchive)]
  }

  /** What MatchRouting yields: a repository path, a file path and a handler; a routing error; or a panic indexing a missing group 1. */
  datatype Dispatched =
    | Routed(repoPath: string, filePath: string, handler: Handler)
    | NotRouted(err: RouteError)
    | GroupMissing

  /**
   * MatchRouting: the repository path is group 1 of the first firing
   * pattern, and the file path is the URL path with the first occurrence of
   * the repository path and a slash removed.
   */
  function Dispatch(routes: seq<TransferRoute>, verb: string, path: string): Dispatched {
    match Resolve(routes, verb, path)
    case Refused(e) => NotRouted(e)
    case Matched(m, route) =>
      if |m| < 2 then GroupMissing
      else Routed(m[1], ReplaceFirst(path, m[1] + "/", ""), route.handler)
  }

  /** How ServeHTTP renders a handler's error: not-exist as 404, the access error as 403, anything else as 500. */
  function ErrorSteps(err: Option<HandlerError>): seq<Step> {
    match err
    case None => []
    case Some(SysError(NotExist)) => TransferRenderer.ErrorPage(404, "Not Found")
    case Some(NoAccess(_)) => TransferRenderer.ErrorPage(403, "Forbidden")
    case Some(SysError(OtherError)) => TransferRenderer.ErrorPage(500, "Internal Server Error")
  }

  /** A handler's own steps, then the page for the error it returned. */
  function HandledSteps(r: Handled): seq<Step> {
    r.steps + ErrorSteps(r.err)
  }

  /**
   * What ServeHTTP does with one request: routing errors are rendered at
   * once; otherwise the repository is checked before any context exists,
   * and only then does the handler run, followed by the page for its error.
   */
  function ServeSteps(g: Git, routes: seq<TransferRoute>, w: XferHandlers.World, req: Request): seq<Step> {
    match Dispatch(routes, req.verb, req.path)
    case NotRouted(URLNotFound(_, _)) => TransferRenderer.ErrorPage(404, "Not Found")
    case NotRouted(MethodNotAllowed(_, _)) => TransferRenderer.MethodNotAllowedPage(req.proto)
    case GroupMissing => [Panicked]
    case Routed(repoPath, filePath, h) => RoutedSteps(g, w, req, repoPath, filePath, h)
  }

  /** Once routed: the existence check, then Not Found or the handler and its error page. */
  function RoutedSteps(g: Git, w: XferHandlers.World, req: Request, repoPath: string, filePath: string, h: Handler): seq<Step> {
    var found := Exists(g, w.fs, repoPath);
    [RepoChecked(repoPath, found)]
    + if found then HandledSteps(HandlerResult(g, w, h, req, repoPath, filePath)) else TransferRenderer.ErrorPage(404, "Not Found")
  }

  method AddBuiltinRoutes(router: Router<seq<string>, Handler>)
    modifies router
    ensures router.routes == old(router.routes) + BuiltinRoutes()
  {
    var routes := BuiltinRoutes();
    var i := 0;
    while i < |routes|
      invariant 0 <= i <= |routes|
      invariant router.routes == old(router.routes) + routes[..i]
    {
      router.Add(routes[i]);
      assert routes[..i + 1] == routes[..i] + [routes[i]];
      i := i + 1;
    }
    assert routes[..i] == routes;
  }

  class GitHttpTransfer {
    const git: Git
    const router: Router<seq<string>, Handler>

    /** New, once the root directory is known. */
    constructor (gitRootPath: string, gitBinPath: string, uploadPack: bool, receivePack: bool)
      ensures fresh(router)
      ensures git == Git(gitRootPath, gitBinPath, uploadPack, receivePack)
      ensures router.routes == BuiltinRoutes()
    {
      git := Git(gitRootPath, gitBinPath, uploadPack, receivePack);
      var r := new Router<seq<string>, Handler>();
      AddBuiltinRoutes(r);
      router := r;
    }

    /** AddRoute: a route of the embedding program, tried after every route before it. */
    method AddRoute(route: TransferRoute)
      modifies router
      ensures router.routes == old(router.routes) + [route]
    {
      router.Add(route);
    }

    method MatchRouting(verb: string, path: string) returns (d: Dispatched)
      ensures d == Dispatch(router.routes, verb, path)
    {
      var found, route, err := router.Match(verb, path);
      if err.Some? {
        return NotRouted(err.value);
      }
      var m := found.value;
      if |m| < 2 {
        return GroupMissing;
      }
      var repoPath := m[1];
      return Routed(repoPath, ReplaceFirst(path, repoPath + "/", ""), route.value.handler);
    }

    /** ServeHTTP */
    method ServeHTTP(rw: ResponseWriter, req: Request, w: XferHandlers.World)
      requires rw.Valid()
      modifies rw
      ensures rw.Valid()
      ensures rw.log == old(rw.log) + ServeSteps(git, router.routes, w, req)
    {
      var d := MatchRouting(req.verb, req.path);
      match d {
        case NotRouted(e) =>
          match e {
            case URLNotFound(_, _) => TransferRenderer.RenderNotFound(rw);
            case MethodNotAllowed(_, _) => TransferRenderer.RenderMethodNotAllowed(rw, req);
          }
        case GroupMissing => rw.Record(Panicked);
        case Routed(repoPath, filePath, h) => ServeRouted(rw, req, repoPath, filePath, h, w);
      }
    }

    /** The part of ServeHTTP after routing succeeded. */
    method ServeRouted(rw: ResponseWriter, req: Request, repoPath: string, filePath: string, h: Handler, w: XferHandlers.World)
      requires rw.Valid()
      modifies rw
      ensures rw.Valid()
      ensures rw.log == old(rw.log) + RoutedSteps(git, w, req, repoPath, filePath, h)
    {
      ghost var log0 := rw.log;
      var found := Exists(git, w.fs, repoPath);
      rw.Record(RepoChecked(repoPath, found));
      if !found {
        TransferRenderer.RenderNotFound(rw);
        LogAssoc(log0, [RepoChecked(repoPath, found)], TransferRenderer.ErrorPage(404, "Not Found"));
        return;
      }
      var ctx := NewContext(rw, req, repoPath, filePath);
      ghost var r := HandlerResult(git, w, h, req, repoPath, filePath);
      var err := RunHandler(h, ctx, w);
      RenderError(rw, err);
      LogAssoc(log0 + [RepoChecked(repoPath, found)], r.steps, ErrorSteps(r.err));
      LogAssoc(log0, [RepoChecked(repoPath, found)], HandledSteps(r));
    }

    /** The error branch of ServeHTTP, in the order the source tests the error. */
    static method RenderError(rw: ResponseWriter, err: Option<HandlerError>)
      requires rw.Valid()
      modifies rw
      ensures rw.Valid()
      ensures rw.log == old(rw.log) + ErrorSteps(err)
    {
      if err.None? {
        return;
      }
      if err.value == SysError(NotExist) {
        TransferRenderer.RenderNotFound(rw);
        return;
      }
      if err.value.NoAccess? {
        TransferRenderer.RenderNoAccess(rw);
        return;
      }
      TransferRenderer.RenderInternalServerError(rw);
    }

    method RunHandler(h: Handler, ctx: Context, w: XferHandlers.World) returns (err: Option<HandlerError>)
      requires ctx.response.writer.Valid()
      modifies ctx.response.writer
      ensures ctx.response.writer.Valid()
      ensures var r := HandlerResult(git, w, h, ctx.request, ctx.repoPath, ctx.filePath);
        ctx.response.writer.log == old(ctx.response.writer.log) + r.steps && err == r.err
    {
      match h
      case ServiceRpcUpload => err := ServiceRpc(ctx, UploadPack, w);
      case ServiceRpcReceive => err := ServiceRpc(ctx, ReceivePack, w);
      case GetInfoRefs => err := GetInfoRefs(ctx, w);
      case GetTextFile => err := GetTextFile(ctx, w);
      case GetInfoPacks => err := GetInfoPacks(ctx, w);
      case GetLooseObject => err := GetLooseObject(ctx, w);
      case GetPackFile => err := GetPackFile(ctx, w);
      case GetIdxFile => err := GetIdxFile(ctx, w);
      case GetArchive => err := GetArchive(ctx, w);
      case Custom(name, result) =>
        ctx.response.writer.Record(CustomHandlerRan(name));
        err := result;
    }

    /** serviceRpc; serviceRpcUpload and serviceRpcReceive call it with their service. */
    method ServiceRpc(ctx: Context, rpc: string, w: XferHandlers.World) returns (err: Option<HandlerError>)
      requires ctx.response.writer.Valid()
      modifies ctx.response.writer
      ensures ctx.response.writer.Valid()
      ensures var r := ServiceRpcResult(git, w, ctx.request, ctx.repoPath, rpc);
        ctx.response.writer.log == old(ctx.response.writer.log) + r.steps && err == r.err
    {
      var res, req, repoPath := ctx.response, ctx.request, ctx.repoPath;
      if !HasAccess(git, req, rpc, true) {
        return Some(NoAccess(NoAccessError(GetAbsolutePath(git, repoPath))));
      }
      if HeaderGet(req, "Content-Encoding") == "gzip" {
        if !w.gzipOk {
          return Some(SysError(OtherError));
        }
      }
      ghost var log0 := res.writer.log;
      res.SetContentType(ResultContentType(rpc));
      var cmd := TransferGit.GitCommand(git, repoPath, RPCArgs(rpc));
      var spec := cmd.Spec();
      assert spec == RpcCommand(git, repoPath, rpc);
      err := RunRpcProcess(res, spec, w.procs(spec));
      LogAssoc(log0, [HeaderSet("Content-Type", ResultContentType(rpc))], RpcProcessResult(spec, w.procs(spec)).steps);
    }

    /** Pipes and start, returning their errors; then stdin, the copy and the wait, ignoring theirs. */
    static method RunRpcProcess(res: Response.Response, cmd: CommandSpec, p: Process) returns (err: Option<HandlerError>)
      requires res.writer.Valid()
      modifies res.writer
      ensures res.writer.Valid()
      ensures res.writer.log == old(res.writer.log) + RpcProcessResult(cmd, p).steps && err == RpcProcessResult(cmd, p).err
    {
      if p.stdinPipe.Err? {
        return Some(SysError(p.stdinPipe.kind));
      }
      if p.stdoutPipe.Err? {
        return Some(SysError(p.stdoutPipe.kind));
      }
      if p.start.Err? {
        return Some(SysError(p.start.kind));
      }
      ghost var log0 := res.writer.log;
      res.writer.Record(CommandStarted(cmd));
      res.writer.Record(StdinCopied(p.copyIn.Ok?));
      res.writer.Record(StdinClosed);
      ghost var head := [CommandStarted(cmd), StdinCopied(p.copyIn.Ok?), StdinClosed];
      assert res.writer.log == log0 + head;
      res.Copy(p.stdout);
      LogAssoc(log0, head, Response.CopySteps(p.stdout));
      res.writer.Record(CommandWaited(p.wait.Ok?));
      LogAssoc(log0, head + Response.CopySteps(p.stdout), [CommandWaited(p.wait.Ok?)]);
      return None;
    }

    method GetInfoRefs(ctx: Context, w: XferHandlers.World) returns (err: Option<HandlerError>)
      requires ctx.response.writer.Valid()
      modifies ctx.response.writer
      ensures ctx.response.writer.Valid()
      ensures var r := InfoRefsResult(git, w, ctx.request, ctx.repoPath, ctx.filePath);
        ctx.response.writer.log == old(ctx.response.writer.log) + r.steps && err == r.err
    {
      var serviceName := ServiceType(ctx.request);
      if !HasAccess(git, ctx.request, serviceName, false) {
        err := DumbInfoRefs(ctx, w);
      } else {
        err := SmartInfoRefs(ctx, serviceName, w);
      }
    }

    /** Without smart access: update-server-info, whose result is ignored, then info/refs as a no-cache text file. */
    method DumbInfoRefs(ctx: Context, w: XferHandlers.World) returns (err: Option<HandlerError>)
      requires ctx.response.writer.Valid()
      modifies ctx.response.writer
      ensures ctx.response.writer.Valid()
      ensures var r := After([CommandRan(UpdateServerInfoCommand(git, ctx.repoPath))] + Response.NoCacheSteps(),
                             SendFileResult(git, w.fs, ctx.repoPath, ctx.filePath, "text/plain; charset=utf-8"));
        ctx.response.writer.log == old(ctx.response.writer.log) + r.steps && err == r.err
    {
      var res := ctx.response;
      ghost var log0 := res.writer.log;
      var _ := TransferGit.UpdateServerInfo(git, w.procs, ctx.repoPath);
      res.writer.Record(CommandRan(UpdateServerInfoCommand(git, ctx.repoPath)));
      res.HdrNocache();
      ghost var head := [CommandRan(UpdateServerInfoCommand(git, ctx.repoPath))] + Response.NoCacheSteps();
      assert res.writer.log == log0 + head;
      err := SendFile("text/plain; charset=utf-8", ctx, w);
      LogAssoc(log0, head, SendFileResult(git, w.fs, ctx.repoPath, ctx.filePath, "text/plain; charset=utf-8").steps);
    }

    /** With smart access: the advertising command, its error returned, or its output framed. */
    method SmartInfoRefs(ctx: Context, serviceName: string, w: XferHandlers.World) returns (err: Option<HandlerError>)
      requires ctx.response.writer.Valid()
      modifies ctx.response.writer
      ensures ctx.response.writer.Valid()
      ensures var r := AdvertiseResult(AdvertiseCommand(git, ctx.repoPath, serviceName), serviceName,
                                       w.procs(AdvertiseCommand(git, ctx.repoPath, serviceName)).output);
        ctx.response.writer.log == old(ctx.response.writer.log) + r.steps && err == r.err
    {
      var res := ctx.response;
      var refs := TransferGit.GetInfoRefs(git, w.procs, ctx.repoPath, serviceName);
      ghost var log0 := res.writer.log;
      res.writer.Record(CommandRan(AdvertiseCommand(git, ctx.repoPath, serviceName)));
      if refs.Failure? {
        return Some(SysError(refs.error));
      }
      XferServer.GitHTTPXfer.WriteAdvertisement(res, AdvertisementContentType(serviceName), ServiceLine(serviceName), refs.value);
      LogAssoc(log0, [CommandRan(AdvertiseCommand(git, ctx.repoPath, serviceName))], XferHandlers.AdvertisedSteps(serviceName, refs.value));
      return None;
    }

    method GetInfoPacks(ctx: Context, w: XferHandlers.World) returns (err: Option<HandlerError>)
      requires ctx.response.writer.Valid()
      modifies ctx.response.writer
      ensures ctx.response.writer.Valid()
      ensures var r := StaticResult(git, w.fs, ctx.repoPath, ctx.filePath, Response.CacheForeverSteps(w.now), "text/plain; charset=utf-8");
        ctx.response.writer.log == old(ctx.response.writer.log) + r.steps && err == r.err
    {
      ghost var log0 := ctx.response.writer.log;
      ctx.response.HdrCacheForever(w.now);
      err := SendFile("text/plain; charset=utf-8", ctx, w);
      LogAssoc(log0, Response.CacheForeverSteps(w.now), SendFileResult(git, w.fs, ctx.repoPath, ctx.filePath, "text/plain; charset=utf-8").steps);
    }

    method GetLooseObject(ctx: Context, w: XferHandlers.World) returns (err: Option<HandlerError>)
      requires ctx.response.writer.Valid()
      modifies ctx.response.writer
      ensures ctx.response.writer.Valid()
      ensures var r := StaticResult(git, w.fs, ctx.repoPath, ctx.filePath, Response.CacheForeverSteps(w.now), "application/x-git-loose-object");
        ctx.response.writer.log == old(ctx.response.writer.log) + r.steps && err == r.err
    {
      ghost var log0 := ctx.response.writer.log;
      ctx.response.HdrCacheForever(w.now);
      err := SendFile("application/x-git-loose-object", ctx, w);
      LogAssoc(log0, Response.CacheForeverSteps(w.now), SendFileResult(git, w.fs, ctx.repoPath, ctx.filePath, "application/x-git-loose-object").steps);
    }

    method GetPackFile(ctx: Context, w: XferHandlers.World) returns (err: Option<HandlerError>)
      requires ctx.response.writer.Valid()
      modifies ctx.response.writer
      ensures ctx.response.writer.Valid()
      ensures var r := StaticResult(git, w.fs, ctx.repoPath, ctx.filePath, Response.CacheForeverSteps(w.now), "application/x-git-packed-objects");
        ctx.response.writer.log == old(ctx.response.writer.log) + r.steps && err == r.err
    {
      ghost var log0 := ctx.response.writer.log;
      ctx.response.HdrCacheForever(w.now);
      err := SendFile("application/x-git-packed-objects", ctx, w);
      LogAssoc(log0, Response.CacheForeverSteps(w.now), SendFileResult(git, w.fs, ctx.repoPath, ctx.filePath, "application/x-git-packed-objects").steps);
    }

    method GetIdxFile(ctx: Context, w: XferHandlers.World) returns (err: Option<HandlerError>)
      requires ctx.response.writer.Valid()
      modifies ctx.response.writer
      ensures ctx.response.writer.Valid()
      ensures var r := StaticResult(git, w.fs, ctx.repoPath, ctx.filePath, Response.CacheForeverSteps(w.now), "application/x-git-packed-objects-toc");
        ctx.response.writer.log == old(ctx.response.writer.log) + r.steps && err == r.err
    {
      ghost var log0 := ctx.response.writer.log;
      ctx.response.HdrCacheForever(w.now);
      err := SendFile("application/x-git-packed-objects-toc", ctx, w);
      LogAssoc(log0, Response.CacheForeverSteps(w.now), SendFileResult(git, w.fs, ctx.repoPath, ctx.filePath, "application/x-git-packed-objects-toc").steps);
    }

    method GetTextFile(ctx: Context, w: XferHandlers.World) returns (err: Option<HandlerError>)
      requires ctx.response.writer.Valid()
      modifies ctx.response.writer
      ensures ctx.response.writer.Valid()
      ensures var r := StaticResult(git, w.fs, ctx.repoPath, ctx.filePath, Response.NoCacheSteps(), "text/plain");
        ctx.response.writer.log == old(ctx.response.writer.log) + r.steps && err == r.err
    {
      ghost var log0 := ctx.response.writer.log;
      ctx.response.HdrNocache();
      err := SendFile("text/plain", ctx, w);
      LogAssoc(log0, Response.NoCacheSteps(), SendFileResult(git, w.fs, ctx.repoPath, ctx.filePath, "text/plain").steps);
    }

    /** sendFile: the stat error is returned before anything is written. */
    method SendFile(contentType: string, ctx: Context, w: XferHandlers.World) returns (err: Option<HandlerError>)
      requires ctx.response.writer.Valid()
      modifies ctx.response.writer
      ensures ctx.response.writer.Valid()
      ensures var r := SendFileResult(git, w.fs, ctx.repoPath, ctx.filePath, contentType);
        ctx.response.writer.log == old(ctx.response.writer.log) + r.steps && err == r.err
    {
      var res := ctx.response;
      var fileInfo := GetRequestFileInfo(git, w.fs, ctx.repoPath, ctx.filePath);
      if fileInfo.Failure? {
        return Some(SysError(fileInfo.error));
      }
      XferHandlers.WriteServedFile(res, contentType, fileInfo.value);
      return None;
    }

    /** getArchive; the archive add-on's HandlerFunc is the same code. */
    method GetArchive(ctx: Context, w: XferHandlers.World) returns (err: Option<HandlerError>)
      requires ctx.response.writer.Valid()
      modifies ctx.response.writer
      ensures ctx.response.writer.Valid()
      ensures var r := ArchiveResult(git, w.procs, ctx.repoPath, ctx.filePath);
        ctx.response.writer.log == old(ctx.response.writer.log) + r.steps && err == r.err
    {
      var derived := Derive(ctx.repoPath, ctx.filePath);
      if derived.None? {
        ctx.response.writer.Record(Panicked);
        return None;
      }
      var n := derived.value;
      var cmd := TransferGit.GitCommand(git, ctx.repoPath, ArchiveArgs(n));
      var spec := cmd.Spec();
      assert spec == ArchiveCommand(git, ctx.repoPath, n, false);
      err := RunArchiveProcess(ctx.response, spec, n.fileName, w.procs(spec));
    }

    /** Pipe and start, returning their errors; the download headers and 200; the copy and the wait, returning theirs. */
    static method RunArchiveProcess(res: Response.Response, cmd: CommandSpec, fileName: string, p: Process) returns (err: Option<HandlerError>)
      requires res.writer.Valid()
      modifies res.writer
      ensures res.writer.Valid()
      ensures res.writer.log == old(res.writer.log) + ArchiveProcessResult(cmd, fileName, p).steps
      ensures err == ArchiveProcessResult(cmd, fileName, p).err
    {
      if p.stdoutPipe.Err? {
        return Some(SysError(p.stdoutPipe.kind));
      }
      if p.start.Err? {
        return Some(SysError(p.start.kind));
      }
      ghost var log0 := res.writer.log;
      res.writer.Record(CommandStarted(cmd));
      WriteDownloadHead(res, fileName);
      ghost var head := [CommandStarted(cmd)] + DownloadHeaderSteps(fileName) + [StatusWritten(200)];
      LogAssoc(log0, [CommandStarted(cmd)], DownloadHeaderSteps(fileName) + [StatusWritten(200)]);
      res.Copy(p.stdout);
      ghost var copied := head + Response.CopySteps(p.stdout);
      LogAssoc(log0, head, Response.CopySteps(p.stdout));
      if p.copyOut.Err? {
        return Some(SysError(p.copyOut.kind));
      }
      res.writer.Record(CommandWaited(p.wait.Ok?));
      LogAssoc(log0, copied, [CommandWaited(p.wait.Ok?)]);
      if p.wait.Err? {
        return Some(SysError(p.wait.kind));
      }
      return None;
    }

    /** The download headers, then status 200. */
    static method WriteDownloadHead(res: Response.Response, fileName: string)
      requires res.writer.Valid()
      modifies res.writer
      ensures res.writer.Valid()
      ensures res.writer.log == old(res.writer.log) + DownloadHeaderSteps(fileName) + [StatusWritten(200)]
    {
      res.SetContentType("application/octet-stream");
      res.writer.Add("Content-Disposition", ContentDisposition(fileName));
      res.writer.Add("Content-Transfer-Encoding", "binary");
      res.WriteHeader(200);
    }
  }

  /** New: an empty root directory means the working directory; failing to get it is fatal. */
  method New(gitRootPath: string, gitBinPath: string, uploadPack: bool, receivePack: bool, cwd: Result<string, ErrKind>)
    returns (r: Result<GitHttpTransfer, ErrKind>)
    ensures r.Failure? <==> gitRootPath == "" && cwd.Failure?
    ensures r.Failure? ==> r.error == cwd.error
    ensures r.Success? ==> fresh(r.value) && r.value.router.routes == BuiltinRoutes()
    ensures r.Success? ==> r.value.git == Git(if gitRootPath == "" then cwd.value else gitRootPath, gitBinPath, uploadPack, receivePack)
  {
    var root := gitRootPath;
    if root == "" {
      if cwd.Failure? {
        return Failure(cwd.error);
      }
      root := cwd.value;
    }
    var ght := new GitHttpTransfer(root, gitBinPath, uploadPack, receivePack);
    return Success(ght);
  }
}
