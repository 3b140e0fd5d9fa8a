/**
 * What each handler of the newer snapshot does to the response, as the
 * ordered steps it leaves in the writer's log. The file system, the
 * subprocesses, gzip decoding of the body and the clock are given as a
 * World, and the handlers read the context's fields as they stand when
 * they run.
 */
module XferHandlers {
  import opened Wrappers
  import opened Os
  import opened Http
  import opened GitRepo
  import opened Pkt
  import opened Numerals
  import opened XferSupport
  import opened XferContext
  import opened XferEvent
  import Response
  import XferRenderer

  /** The oracles: os.Stat, the subprocesses, whether gzip.NewReader accepts the body, and the Unix time. */
  datatype World = World(fs: FileSystem, procs: Processes, gzipOk: bool, now: int)

  /** The handlers the built-in routes name, and a handler the embedding program registered. */
  datatype Handler =
    | ServiceRPCUpload | ServiceRPCReceive | GetInfoRefs
    | GetTextFile | GetInfoPacks | GetLooseObject | GetPackFile | GetIdxFile
    | Custom(name: string)

  /** The command serviceRPC starts. */
  function RPCCommand(g: Git, f: ContextFields, rpc: string): CommandSpec {
    CommandSpec(g.binPath, RPCArgs(rpc), GetAbsolutePath(g, f.repoPath), true, f.env)
  }

  /**
   * serviceRPC, sequentially: access check, optional gzip reader, pipes and
   * start, copy the body in, close stdin, then Content-Type and 200, then copy
   * the output, then wait. Every failure before the status renders 500; a
   * failure copying the output only stops the handler.
   */
  function ServiceRPCSteps(g: Git, w: World, f: ContextFields, rpc: string): seq<Step> {
    if !HasAccess(g, f.request, rpc, true) then XferRenderer.ErrorPage(403)
    else if HeaderGet(f.request, "Content-Encoding") == "gzip" && !w.gzipOk then XferRenderer.ErrorPage(500)
    else CommandSteps(RPCCommand(g, f, rpc), w.procs(RPCCommand(g, f, rpc)), rpc)
  }

  /** From obtaining the pipes of `cmd` on. */
  function CommandSteps(cmd: CommandSpec, p: Process, rpc: string): seq<Step> {
    if p.stdinPipe.Err? || p.stdoutPipe.Err? || p.start.Err? then XferRenderer.ErrorPage(500)
    else [CommandStarted(cmd)] + StartedSteps(p, rpc)
  }

  /** From copying the request body into a started command on. */
  function StartedSteps(p: Process, rpc: string): seq<Step> {
    if p.copyIn.Err? then [StdinCopied(false)] + XferRenderer.ErrorPage(500)
    else
      [StdinCopied(true), StdinClosed, HeaderSet("Content-Type", ResultContentType(rpc)), StatusWritten(200)]
      + Response.CopySteps(p.stdout)
      + (if p.copyOut.Err? then [] else [CommandWaited(p.wait.Ok?)])
  }

  /** sendFile: the three headers, then http.ServeFile; None when the stat fails. */
  function SendFileSteps(g: Git, fs: FileSystem, f: ContextFields, contentType: string): Option<seq<Step>> {
    match GetRequestFileInfo(g, fs, f.repoPath, f.filePath)
    case Failure(_) => None
    case Success(info) => Some(ServedFileSteps(contentType, info))
  }

  /** The three headers sendFile sets for a file it could stat, then http.ServeFile; shared by both snapshots. */
  function ServedFileSteps(contentType: string, info: RequestFileInfo): seq<Step> {
    [HeaderSet("Content-Type", contentType),
     HeaderSet("Content-Length", Decimal(info.size)),
     HeaderSet("Last-Modified", info.modTime),
     FileServed(info.absolutePath)]
  }

  /** sendFile's writes for a file it could stat, the same in both snapshots. */
  method WriteServedFile(res: Response.Response, contentType: string, info: RequestFileInfo)
    requires res.writer.Valid()
    modifies res.writer
    ensures res.writer.Valid()
    ensures res.writer.log == old(res.writer.log) + ServedFileSteps(contentType, info)
  {
    res.SetContentType(contentType);
    res.SetContentLength(Decimal(info.size));
    res.SetLastModified(info.modTime);
    res.writer.Record(FileServed(info.absolutePath));
  }

  /** A static handler: its cache headers, then the file, or Not Found when it cannot be stat'ed. */
  function StaticSteps(g: Git, fs: FileSystem, f: ContextFields, cache: seq<Step>, contentType: string): seq<Step> {
    cache + FileOrNotFoundSteps(g, fs, f, contentType)
  }

  /** The file's headers, or Not Found when it cannot be stat'ed. */
  function FileOrNotFoundSteps(g: Git, fs: FileSystem, f: ContextFields, contentType: string): seq<Step> {
    match SendFileSteps(g, fs, f, contentType)
    case None => XferRenderer.ErrorPage(404)
    case Some(s) => s
  }

  /** The commands getInfoRefs runs. */
  function UpdateServerInfoCommand(g: Git, f: ContextFields): CommandSpec {
    CommandSpec(g.binPath, ["update-server-info"], GetAbsolutePath(g, f.repoPath), true, f.env)
  }

  function AdvertiseCommand(g: Git, f: ContextFields, svc: string): CommandSpec {
    CommandSpec(g.binPath, InfoRefsArgs(svc), GetAbsolutePath(g, f.repoPath), true, f.env)
  }

  /**
   * getInfoRefs: with smart access, the advertisement framed in pkt-lines;
   * otherwise update-server-info and the static info/refs file.
   */
  function InfoRefsSteps(g: Git, w: World, f: ContextFields): seq<Step> {
    var svc := ServiceType(f.request);
    if !HasAccess(g, f.request, svc, false) then DumbInfoRefsSteps(g, w, f) else SmartInfoRefsSteps(g, w, f, svc)
  }

  /** The dumb protocol: update-server-info, then info/refs served as a no-cache text file. */
  function DumbInfoRefsSteps(g: Git, w: World, f: ContextFields): seq<Step> {
    [CommandRan(UpdateServerInfoCommand(g, f))]
    + StaticSteps(g, w.fs, f, Response.NoCacheSteps(), "text/plain; charset=utf-8")
  }

  /** The smart protocol: the advertising command, then its output framed as an advertisement. */
  function SmartInfoRefsSteps(g: Git, w: World, f: ContextFields, svc: string): seq<Step> {
    var cmd := AdvertiseCommand(g, f, svc);
    [CommandRan(cmd)] + AdvertisementSteps(svc, w.procs(cmd).output)
  }

  /** After the advertising command ran: Not Found if it failed, else the pkt-line framed refs. */
  function AdvertisementSteps(svc: string, output: Result<string, ErrKind>): seq<Step> {
    match output
    case Failure(_) => XferRenderer.ErrorPage(404)
    case Success(refs) => AdvertisedSteps(svc, refs)
  }

  /** The advertisement of `svc` with the given refs: no-cache headers, Content-Type, 200, service pkt-line, flush-pkt, refs. Shared by both snapshots. */
  function AdvertisedSteps(svc: string, refs: string): seq<Step> {
    Response.NoCacheSteps()
    + [HeaderSet("Content-Type", AdvertisementContentType(svc)), StatusWritten(200),
       BodyWritten(PktLine(ServiceLine(svc))), BodyWritten(FlushPkt), BodyWritten(refs)]
  }

  /** serviceRPCUpload / serviceRPCReceive: the event `key` fires on the context, then serviceRPC runs on the result. */
  function HookedRPCSteps(g: Git, listeners: map<string, Listener>, w: World, f: ContextFields, key: string, rpc: string): seq<Step> {
    var (f1, hook) := EmitResult(listeners, key, f);
    hook + ServiceRPCSteps(g, w, f1, rpc)
  }

  /** What the handler of a matched route does with the context fields `f`. */
  function HandlerSteps(g: Git, listeners: map<string, Listener>, w: World, h: Handler, f: ContextFields): seq<Step> {
    match h
    case ServiceRPCUpload => HookedRPCSteps(g, listeners, w, f, BeforeUploadPack, UploadPack)
    case ServiceRPCReceive => HookedRPCSteps(g, listeners, w, f, BeforeReceivePack, ReceivePack)
    case GetInfoRefs => InfoRefsSteps(g, w, f)
    case GetTextFile => StaticSteps(g, w.fs, f, Response.NoCacheSteps(), "text/plain")
    case GetInfoPacks => StaticSteps(g, w.fs, f, Response.CacheForeverSteps(w.now), "text/plain; charset=utf-8")
    case GetLooseObject => StaticSteps(g, w.fs, f, Response.CacheForeverSteps(w.now), "application/x-git-loose-object")
    case GetPackFile => StaticSteps(g, w.fs, f, Response.CacheForeverSteps(w.now), "application/x-git-packed-objects")
    case GetIdxFile => StaticSteps(g, w.fs, f, Response.CacheForeverSteps(w.now), "application/x-git-packed-objects-toc")
    case Custom(name) => [CustomHandlerRan(name)]
  }
}
