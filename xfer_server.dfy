/**
 * The newer snapshot's server: options, the built-in route table, and
 * ServeHTTP with the handlers it dispatches to. Each method is proved to
 * leave in the writer's log exactly the steps the functions of XferHandlers
 * and ServeSteps describe.
 */
module XferServer {
  import opened Wrappers
  import opened Os
  import opened Http
  import opened GitRepo
  import opened Routing
  import opened RouteErrors
  import opened XferSupport
  import opened XferContext
  import opened XferEvent
  import opened Numerals
  import Pkt
  import XferHandlers
  import XferMatchers
  import XferRenderer
  import XferGit
  import Response

  /** The functional options of New. */
  datatype XferOption = DisableUploadPack | DisableReceivePack | WithoutDumbProto

  datatype Options = Options(uploadPack: bool, receivePack: bool, dumbProto: bool)

  /** Starts from all-enabled and applies the options in order; each can only switch a feature off. */
  method CollectOptions(opts: seq<XferOption>) returns (o: Options)
    ensures o.uploadPack <==> DisableUploadPack !in opts
    ensures o.receivePack <==> DisableReceivePack !in opts
    ensures o.dumbProto <==> WithoutDumbProto !in opts
  {
    o := Options(true, true, true);
    var i := 0;
    while i < |opts|
      invariant 0 <= i <= |opts|
      invariant o.uploadPack <==> DisableUploadPack !in opts[..i]
      invariant o.receivePack <==> DisableReceivePack !in opts[..i]
      invariant o.dumbProto <==> WithoutDumbProto !in opts[..i]
    {
      assert opts[..i + 1] == opts[..i] + [opts[i]];
      o := match opts[i] {
        case DisableUploadPack => o.(uploadPack := false)
        case DisableReceivePack => o.(receivePack := false)
        case WithoutDumbProto => o.(dumbProto := false)
      };
      i := i + 1;
    }
    assert opts[..i] == opts;
  }

  type XferRoute = Route<XferMatchers.PathMatch, XferHandlers.Handler>

  /** The three smart-protocol routes, always registered first. */
  function SmartRoutes(): seq<XferRoute> {
    [Route("POST", XferMatchers.ServiceRPCUpload, XferHandlers.ServiceRPCUpload),
     Route("POST", XferMatchers.ServiceRPCReceive, XferHandlers.ServiceRPCReceive),
     Route("GET", XferMatchers.GetInfoRefs, XferHandlers.GetInfoRefs)]
  }

  /** The eight dumb-protocol routes, in registration order. */
  function DumbRoutes(): seq<XferRoute> {
    [Route("GET", XferMatchers.GetHead, XferHandlers.GetTextFile),
     Route("GET", XferMatchers.GetAlternates, XferHandlers.GetTextFile),
     Route("GET", XferMatchers.GetHTTPAlternates, XferHandlers.GetTextFile),
     Route("GET", XferMatchers.GetInfoPacks, XferHandlers.GetInfoPacks),
     Route("GET", XferMatchers.GetInfoFile, XferHandlers.GetTextFile),
     Route("GET", XferMatchers.GetLooseObject, XferHandlers.GetLooseObject),
     Route("GET", XferMatchers.GetPackFile, XferHandlers.GetPackFile),
     Route("GET", XferMatchers.GetIdxFile, XferHandlers.GetIdxFile)]
  }

  /** The route table New builds. */
  function BuiltinRoutes(dumbProto: bool): seq<XferRoute> {
    SmartRoutes() + if dumbProto then DumbRoutes() else []
  }

  method AddBuiltinRoutes(router: Router<XferMatchers.PathMatch, XferHandlers.Handler>, dumbProto: bool)
    modifies router
    ensures router.routes == old(router.routes) + BuiltinRoutes(dumbProto)
  {
    var smart := SmartRoutes();
    router.Add(smart[0]);
    router.Add(smart[1]);
    router.Add(smart[2]);
    assert router.routes == old(router.routes) + smart;
    if dumbProto {
      var dumb := DumbRoutes();
      var i := 0;
      while i < |dumb|
        invariant 0 <= i <= |dumb|
        invariant router.routes == old(router.routes) + smart + dumb[..i]
      {
        router.Add(dumb[i]);
        assert dumb[..i + 1] == dumb[..i] + [dumb[i]];
        i := i + 1;
      }
      assert dumb[..i] == dumb;
    }
  }

  /**
   * What ServeHTTP does with one request: routing errors are rendered at
   * once; otherwise the after-match-routing listener runs, the repository
   * (as the listener may have rewritten it) is checked, and only then does
   * the route's handler run.
   */
  function ServeSteps(g: Git, routes: seq<XferRoute>, listeners: map<string, Listener>, w: XferHandlers.World, req: Request): seq<Step> {
    match Resolve(routes, req.verb, req.path)
    case Refused(URLNotFound(_, _)) => XferRenderer.ErrorPage(404)
    case Refused(MethodNotAllowed(_, _)) => XferRenderer.ErrorPage(XferRenderer.MethodNotAllowedCode(req.proto))
    case Matched(m, route) => MatchedSteps(g, listeners, w, req, m, route.handler)
  }

  /** Once a route matched: the after-match-routing event, the existence check on the (possibly rewritten) repository, then the handler. */
  function MatchedSteps(g: Git, listeners: map<string, Listener>, w: XferHandlers.World, req: Request,
                        m: XferMatchers.PathMatch, h: XferHandlers.Handler): seq<Step> {
    var (f, hook) := EmitResult(listeners, AfterMatchRouting, ContextFields(req, m.repoPath, m.filePath, None));
    hook + RepositorySteps(g, listeners, w, h, f)
  }

  /** The existence check on the context's repository, then the handler, or Not Found. */
  function RepositorySteps(g: Git, listeners: map<string, Listener>, w: XferHandlers.World, h: XferHandlers.Handler, f: ContextFields): seq<Step> {
    var found := Exists(g, w.fs, f.repoPath);
    [RepoChecked(f.repoPath, found)] + if found then XferHandlers.HandlerSteps(g, listeners, w, h, f) else XferRenderer.ErrorPage(404)
  }

  class GitHTTPXfer {
    const git: Git
    const router: Router<XferMatchers.PathMatch, XferHandlers.Handler>
    const event: Event

    /** New, once the root directory is known. */
    constructor (gitRootPath: string, gitBinPath: string, opts: seq<XferOption>)
      ensures fresh(router) && fresh(event)
      ensures git == Git(gitRootPath, gitBinPath, DisableUploadPack !in opts, DisableReceivePack !in opts)
      ensures router.routes == BuiltinRoutes(WithoutDumbProto !in opts)
      ensures event.listeners == map[]
    {
      var o := CollectOptions(opts);
      git := Git(gitRootPath, gitBinPath, o.uploadPack, o.receivePack);
      var r := new Router<XferMatchers.PathMatch, XferHandlers.Handler>();
      AddBuiltinRoutes(r, o.dumbProto);
      router := r;
      event := new Event();
    }

    /** ServeHTTP */
    method ServeHTTP(rw: ResponseWriter, req: Request, w: XferHandlers.World)
      requires rw.Valid()
      modifies rw
      ensures rw.Valid()
      ensures rw.log == old(rw.log) + ServeSteps(git, router.routes, event.listeners, w, req)
    {
      var found, route, err := router.Match(req.verb, req.path);
      if err.Some? {
        match err.value {
          case URLNotFound(_, _) => XferRenderer.RenderNotFound(rw);
          case MethodNotAllowed(_, _) => XferRenderer.RenderMethodNotAllowed(rw, req);
        }
        return;
      }
      ServeMatched(rw, req, found.value, route.value.handler, w);
    }

    /** The part of ServeHTTP after a route matched. */
    method ServeMatched(rw: ResponseWriter, req: Request, m: XferMatchers.PathMatch, h: XferHandlers.Handler, w: XferHandlers.World)
      requires rw.Valid()
      modifies rw
      ensures rw.Valid()
      ensures rw.log == old(rw.log) + MatchedSteps(git, event.listeners, w, req, m, h)
    {
      ghost var log0 := rw.log;
      var ctx := new Context(rw, req, m.repoPath, m.filePath);
      ghost var (f, hook) := EmitResult(event.listeners, AfterMatchRouting, ctx.Fields());
      event.Emit(AfterMatchRouting, ctx);
      ServeRepository(h, ctx, w);
      LogAssoc(log0, hook, RepositorySteps(git, event.listeners, w, h, f));
    }

    /** The existence check on the context's repository, then the handler, or Not Found. */
    method ServeRepository(h: XferHandlers.Handler, ctx: Context, w: XferHandlers.World)
      requires ctx.response.writer.Valid()
      modifies ctx, ctx.response.writer
      ensures ctx.response.writer.Valid()
      ensures ctx.response.writer.log == old(ctx.response.writer.log) + RepositorySteps(git, event.listeners, w, h, old(ctx.Fields()))
    {
      ghost var log0 := ctx.response.writer.log;
      var repoFound := Exists(git, w.fs, ctx.repoPath);
      ctx.response.writer.Record(RepoChecked(ctx.repoPath, repoFound));
      if !repoFound {
        XferRenderer.RenderNotFound(ctx.response.writer);
        LogAssoc(log0, [RepoChecked(ctx.repoPath, repoFound)], XferRenderer.ErrorPage(404));
        return;
      }
      ghost var f := ctx.Fields();
      RunHandler(h, ctx, w);
      LogAssoc(log0, [RepoChecked(f.repoPath, repoFound)], XferHandlers.HandlerSteps(git, event.listeners, w, h, f));
    }

    method RunHandler(h: XferHandlers.Handler, ctx: Context, w: XferHandlers.World)
      requires ctx.response.writer.Valid()
      modifies ctx, ctx.response.writer
      ensures ctx.response.writer.Valid()
      ensures ctx.response.writer.log == old(ctx.response.writer.log) + XferHandlers.HandlerSteps(git, event.listeners, w, h, old(ctx.Fields()))
    {
      match h
      case ServiceRPCUpload => HookedRPC(BeforeUploadPack, ctx, UploadPack, w);
      case ServiceRPCReceive => HookedRPC(BeforeReceivePack, ctx, ReceivePack, w);
      case GetInfoRefs => GetInfoRefs(ctx, w);
      case GetTextFile => GetTextFile(ctx, w);
      case GetInfoPacks => GetInfoPacks(ctx, w);
      case GetLooseObject => GetLooseObject(ctx, w);
      case GetPackFile => GetPackFile(ctx, w);
      case GetIdxFile => GetIdxFile(ctx, w);
      case Custom(name) => ctx.response.writer.Record(CustomHandlerRan(name));
    }

    /** serviceRPCUpload and serviceRPCReceive: emit `key`, then serviceRPC. */
    method HookedRPC(key: string, ctx: Context, rpc: string, w: XferHandlers.World)
      requires ctx.response.writer.Valid()
      modifies ctx, ctx.response.writer
      ensures ctx.response.writer.Valid()
      ensures ctx.response.writer.log == old(ctx.response.writer.log) + XferHandlers.HookedRPCSteps(git, event.listeners, w, old(ctx.Fields()), key, rpc)
    {
      ghost var log0 := ctx.response.writer.log;
      ghost var emitted := EmitResult(event.listeners, key, ctx.Fields());
      event.Emit(key, ctx);
      ServiceRPC(ctx, rpc, w);
      LogAssoc(log0, emitted.1, XferHandlers.ServiceRPCSteps(git, w, emitted.0, rpc));
    }

    method ServiceRPC(ctx: Context, rpc: string, w: XferHandlers.World)
      requires ctx.response.writer.Valid()
      modifies ctx.response.writer
      ensures ctx.response.writer.Valid()
      ensures ctx.response.writer.log == old(ctx.response.writer.log) + XferHandlers.ServiceRPCSteps(git, w, ctx.Fields(), rpc)
    {
      var res, req, repoPath := ctx.response, ctx.request, ctx.repoPath;
      if !HasAccess(git, req, rpc, true) {
        XferRenderer.RenderNoAccess(res.writer);
        return;
      }
      if HeaderGet(req, "Content-Encoding") == "gzip" {
        if !w.gzipOk {
          XferRenderer.RenderInternalServerError(res.writer);
          return;
        }
      }
      var cmd := XferGit.GitCommand(git, repoPath, RPCArgs(rpc));
      cmd.SetEnv(ctx.env);
      RunRPCCommand(res, cmd.Spec(), w.procs(cmd.Spec()), rpc);
    }

    /** Pipes, start, and everything after a successful start. */
    static method RunRPCCommand(res: Response.Response, spec: CommandSpec, p: Process, rpc: string)
      requires res.writer.Valid()
      modifies res.writer
      ensures res.writer.Valid()
      ensures res.writer.log == old(res.writer.log) + XferHandlers.CommandSteps(spec, p, rpc)
    {
      if p.stdinPipe.Err? {
        XferRenderer.RenderInternalServerError(res.writer);
        return;
      }
      if p.stdoutPipe.Err? {
        XferRenderer.RenderInternalServerError(res.writer);
        return;
      }
      if p.start.Err? {
        XferRenderer.RenderInternalServerError(res.writer);
        return;
      }
      res.writer.Record(CommandStarted(spec));
      StreamRPC(res, p, rpc);
    }

    /** Copy in, close stdin, status, copy out, wait. */
    static method StreamRPC(res: Response.Response, p: Process, rpc: string)
      requires res.writer.Valid()
      modifies res.writer
      ensures res.writer.Valid()
      ensures res.writer.log == old(res.writer.log) + XferHandlers.StartedSteps(p, rpc)
    {
      ghost var log0 := res.writer.log;
      res.writer.Record(StdinCopied(p.copyIn.Ok?));
      if p.copyIn.Err? {
        XferRenderer.RenderInternalServerError(res.writer);
        LogAssoc(log0, [StdinCopied(false)], XferRenderer.ErrorPage(500));
        return;
      }
      ghost var head := [StdinCopied(true), StdinClosed, HeaderSet("Content-Type", ResultContentType(rpc)), StatusWritten(200)];
      res.writer.Record(StdinClosed);
      res.SetContentType(ResultContentType(rpc));
      res.WriteHeader(200);
      assert res.writer.log == log0 + head;
      res.Copy(p.stdout);
      LogAssoc(log0, head, Response.CopySteps(p.stdout));
      if p.copyOut.Err? {
        assert XferHandlers.StartedSteps(p, rpc) == head + Response.CopySteps(p.stdout) + [];
        return;
      }
      res.writer.Record(CommandWaited(p.wait.Ok?));
      LogAssoc(log0, head + Response.CopySteps(p.stdout), [CommandWaited(p.wait.Ok?)]);
    }

    method GetInfoRefs(ctx: Context, w: XferHandlers.World)
      requires ctx.response.writer.Valid()
      modifies ctx.response.writer
      ensures ctx.response.writer.Valid()
      ensures ctx.response.writer.log == old(ctx.response.writer.log) + XferHandlers.InfoRefsSteps(git, w, ctx.Fields())
    {
      var serviceName := ServiceType(ctx.request);
      if !HasAccess(git, ctx.request, serviceName, false) {
        DumbInfoRefs(ctx, w);
      } else {
        SmartInfoRefs(ctx, serviceName, w);
      }
    }

    /** Without access to the smart protocol: update-server-info, then info/refs as a static file. */
    method DumbInfoRefs(ctx: Context, w: XferHandlers.World)
      requires ctx.response.writer.Valid()
      modifies ctx.response.writer
      ensures ctx.response.writer.Valid()
      ensures ctx.response.writer.log == old(ctx.response.writer.log) + XferHandlers.DumbInfoRefsSteps(git, w, ctx.Fields())
    {
      var res := ctx.response;
      ghost var start := res.writer.log;
      var cmd := XferGit.GitCommand(git, ctx.repoPath, ["update-server-info"]);
      cmd.SetEnv(ctx.env);
      var spec := cmd.Spec();
      assert spec == XferHandlers.UpdateServerInfoCommand(git, ctx.Fields());
      res.writer.Record(CommandRan(spec));
      ghost var log0 := res.writer.log;
      res.HdrNocache();
      SendFileOrNotFound("text/plain; charset=utf-8", ctx, w);
      LogAssoc(log0, Response.NoCacheSteps(), XferHandlers.FileOrNotFoundSteps(git, w.fs, ctx.Fields(), "text/plain; charset=utf-8"));
      LogAssoc(start, [CommandRan(spec)], XferHandlers.StaticSteps(git, w.fs, ctx.Fields(), Response.NoCacheSteps(), "text/plain; charset=utf-8"));
    }

    /** The smart protocol: run the advertising command and frame its output. */
    method SmartInfoRefs(ctx: Context, serviceName: string, w: XferHandlers.World)
      requires ctx.response.writer.Valid()
      modifies ctx.response.writer
      ensures ctx.response.writer.Valid()
      ensures ctx.response.writer.log == old(ctx.response.writer.log) + XferHandlers.SmartInfoRefsSteps(git, w, ctx.Fields(), serviceName)
    {
      ghost var f := ctx.Fields();
      var cmd := XferGit.GitCommand(git, ctx.repoPath, InfoRefsArgs(serviceName));
      cmd.SetEnv(ctx.env);
      var spec := cmd.Spec();
      assert spec == XferHandlers.AdvertiseCommand(git, f, serviceName);
      ghost var log0 := ctx.response.writer.log;
      Advertise(ctx.response, spec, serviceName, w.procs(spec).output);
      LogAssoc(log0, [CommandRan(spec)], XferHandlers.AdvertisementSteps(serviceName, w.procs(spec).output));
    }

    /** The rest of getInfoRefs: run the advertising command `spec` and frame its output. */
    static method Advertise(res: Response.Response, spec: CommandSpec, serviceName: string, refs: Result<string, ErrKind>)
      requires res.writer.Valid()
      modifies res.writer
      ensures res.writer.Valid()
      ensures res.writer.log == old(res.writer.log) + [CommandRan(spec)] + XferHandlers.AdvertisementSteps(serviceName, refs)
    {
      res.writer.Record(CommandRan(spec));
      if refs.Failure? {
        XferRenderer.RenderNotFound(res.writer);
        return;
      }
      var ct, line := AdvertisementContentType(serviceName), ServiceLine(serviceName);
      WriteAdvertisement(res, ct, line, refs.value);
    }

    /** The no-cache headers, the Content-Type, status 200, the service pkt-line, a flush-pkt and the refs. */
    static method WriteAdvertisement(res: Response.Response, ct: string, line: string, refs: string)
      requires res.writer.Valid()
      modifies res.writer
      ensures res.writer.Valid()
      ensures res.writer.log == old(res.writer.log) + Response.NoCacheSteps()
        + [HeaderSet("Content-Type", ct), StatusWritten(200), BodyWritten(Pkt.PktLine(line)), BodyWritten(Pkt.FlushPkt), BodyWritten(refs)]
    {
      res.HdrNocache();
      ghost var log1 := res.writer.log;
      res.SetContentType(ct);
      res.WriteHeader(200);
      assert res.writer.log == log1 + [HeaderSet("Content-Type", ct), StatusWritten(200)];
      WriteFramed(res, line, refs);
    }

    /** The service pkt-line, a flush-pkt, then the refs as they are. */
    static method WriteFramed(res: Response.Response, line: string, refs: string)
      requires res.writer.Valid()
      modifies res.writer
      ensures res.writer.Valid()
      ensures res.writer.log == old(res.writer.log) + [BodyWritten(Pkt.PktLine(line)), BodyWritten(Pkt.FlushPkt), BodyWritten(refs)]
    {
      res.PktWrite(line);
      res.PktFlush();
      res.Write(refs);
    }

    method GetInfoPacks(ctx: Context, w: XferHandlers.World)
      requires ctx.response.writer.Valid()
      modifies ctx.response.writer
      ensures ctx.response.writer.Valid()
      ensures ctx.response.writer.log == old(ctx.response.writer.log)
        + XferHandlers.StaticSteps(git, w.fs, ctx.Fields(), Response.CacheForeverSteps(w.now), "text/plain; charset=utf-8")
    {
      ghost var log0 := ctx.response.writer.log;
      ctx.response.HdrCacheForever(w.now);
      SendFileOrNotFound("text/plain; charset=utf-8", ctx, w);
      LogAssoc(log0, Response.CacheForeverSteps(w.now), XferHandlers.FileOrNotFoundSteps(git, w.fs, ctx.Fields(), "text/plain; charset=utf-8"));
    }

    method GetLooseObject(ctx: Context, w: XferHandlers.World)
      requires ctx.response.writer.Valid()
      modifies ctx.response.writer
      ensures ctx.response.writer.Valid()
      ensures ctx.response.writer.log == old(ctx.response.writer.log)
        + XferHandlers.StaticSteps(git, w.fs, ctx.Fields(), Response.CacheForeverSteps(w.now), "application/x-git-loose-object")
    {
      ghost var log0 := ctx.response.writer.log;
      ctx.response.HdrCacheForever(w.now);
      SendFileOrNotFound("application/x-git-loose-object", ctx, w);
      LogAssoc(log0, Response.CacheForeverSteps(w.now), XferHandlers.FileOrNotFoundSteps(git, w.fs, ctx.Fields(), "application/x-git-loose-object"));
    }

    method GetPackFile(ctx: Context, w: XferHandlers.World)
      requires ctx.response.writer.Valid()
      modifies ctx.response.writer
      ensures ctx.response.writer.Valid()
      ensures ctx.response.writer.log == old(ctx.response.writer.log)
        + XferHandlers.StaticSteps(git, w.fs, ctx.Fields(), Response.CacheForeverSteps(w.now), "application/x-git-packed-objects")
    {
      ghost var log0 := ctx.response.writer.log;
      ctx.response.HdrCacheForever(w.now);
      SendFileOrNotFound("application/x-git-packed-objects", ctx, w);
      LogAssoc(log0, Response.CacheForeverSteps(w.now), XferHandlers.FileOrNotFoundSteps(git, w.fs, ctx.Fields(), "application/x-git-packed-objects"));
    }

    method GetIdxFile(ctx: Context, w: XferHandlers.World)
      requires ctx.response.writer.Valid()
      modifies ctx.response.writer
      ensures ctx.response.writer.Valid()
      ensures ctx.response.writer.log == old(ctx.response.writer.log)
        + XferHandlers.StaticSteps(git, w.fs, ctx.Fields(), Response.CacheForeverSteps(w.now), "application/x-git-packed-objects-toc")
    {
      ghost var log0 := ctx.response.writer.log;
      ctx.response.HdrCacheForever(w.now);
      SendFileOrNotFound("application/x-git-packed-objects-toc", ctx, w);
      LogAssoc(log0, Response.CacheForeverSteps(w.now), XferHandlers.FileOrNotFoundSteps(git, w.fs, ctx.Fields(), "application/x-git-packed-objects-toc"));
    }

    method GetTextFile(ctx: Context, w: XferHandlers.World)
      requires ctx.response.writer.Valid()
      modifies ctx.response.writer
      ensures ctx.response.writer.Valid()
      ensures ctx.response.writer.log == old(ctx.response.writer.log)
        + XferHandlers.StaticSteps(git, w.fs, ctx.Fields(), Response.NoCacheSteps(), "text/plain")
    {
      ghost var log0 := ctx.response.writer.log;
      ctx.response.HdrNocache();
      SendFileOrNotFound("text/plain", ctx, w);
      LogAssoc(log0, Response.NoCacheSteps(), XferHandlers.FileOrNotFoundSteps(git, w.fs, ctx.Fields(), "text/plain"));
    }

    /** sendFile, and Not Found where it returns the stat error. */
    method SendFileOrNotFound(contentType: string, ctx: Context, w: XferHandlers.World)
      requires ctx.response.writer.Valid()
      modifies ctx.response.writer
      ensures ctx.response.writer.Valid()
      ensures ctx.response.writer.log == old(ctx.response.writer.log) + XferHandlers.FileOrNotFoundSteps(git, w.fs, ctx.Fields(), contentType)
    {
      var ok := SendFile(contentType, ctx, w);
      if !ok {
        XferRenderer.RenderNotFound(ctx.response.writer);
      }
    }

    /** sendFile; `ok` is false where the source returns the stat error. */
    method SendFile(contentType: string, ctx: Context, w: XferHandlers.World) returns (ok: bool)
      requires ctx.response.writer.Valid()
      modifies ctx.response.writer
      ensures ctx.response.writer.Valid()
      ensures ok <==> XferHandlers.SendFileSteps(git, w.fs, ctx.Fields(), contentType).Some?
      ensures ctx.response.writer.log == old(ctx.response.writer.log)
        + if ok then XferHandlers.SendFileSteps(git, w.fs, ctx.Fields(), contentType).value else []
    {
      var res := ctx.response;
      var fileInfo := GetRequestFileInfo(git, w.fs, ctx.repoPath, ctx.filePath);
      if fileInfo.Failure? {
        return false;
      }
      XferHandlers.WriteServedFile(res, contentType, fileInfo.value);
      return true;
    }
  }

  /** New: an empty root directory means the working directory, whose lookup may fail. */
  method New(gitRootPath: string, gitBinPath: string, opts: seq<XferOption>, cwd: Result<string, ErrKind>)
    returns (r: Result<GitHTTPXfer, ErrKind>)
    ensures r.Failure? <==> gitRootPath == "" && cwd.Failure?
    ensures r.Failure? ==> r.error == cwd.error
    ensures r.Success? ==> fresh(r.value) && r.value.git.rootPath == (if gitRootPath == "" then cwd.value else gitRootPath)
    ensures r.Success? ==> r.value.router.routes == BuiltinRoutes(WithoutDumbProto !in opts)
  {
    var root := gitRootPath;
    if root == "" {
      if cwd.Failure? {
        return Failure(cwd.error);
      }
      root := cwd.value;
    }
    var ghx := new GitHTTPXfer(root, gitBinPath, opts);
    return Success(ghx);
  }
}
