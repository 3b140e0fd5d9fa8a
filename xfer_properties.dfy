/**
 * What the newer snapshot's server promises about one request, stated on
 * the steps ServeHTTP and the handlers leave in the writer's log and on
 * what the client then observes: the status, the body and the header.
 */
module XferProperties {
  import opened Wrappers
  import opened Os
  import opened Http
  import opened GoStrings
  import opened GitRepo
  import opened Pkt
  import opened Numerals
  import opened Routing
  import opened RouteErrors
  import opened XferContext
  import opened XferEvent
  import opened XferSupport
  import opened XferHandlers
  import opened XferServer
  import Response
  import XferRenderer
  import XferMatchers
  import PathPatterns

  /** Neither a listener nor the existence check nor any command is involved in a step of the error page. */
  predicate RendersOnly(steps: seq<Step>) {
    forall i :: 0 <= i < |steps| ==> steps[i].HeaderSet? || steps[i].StatusWritten? || steps[i].BodyWritten?
  }

  /**
   * A routing error is answered before anything else: 404 when no route
   * fires, 405 (or 400 outside HTTP/1.1) when the first firing route has
   * another method; no listener runs, no repository is checked, no
   * handler runs.
   */
  lemma RoutingErrorRendersOnlyPage(g: Git, routes: seq<XferRoute>, listeners: map<string, Listener>,
                                    w: World, req: Request, before: seq<Step>)
    requires Resolve(routes, req.verb, req.path).Refused?
    requires StatusOf(before) == Unwritten
    ensures var steps := ServeSteps(g, routes, listeners, w, req);
      var code := if Resolve(routes, req.verb, req.path).err.URLNotFound? then 404
                  else if req.proto == "HTTP/1.1" then 405 else 400;
      && RendersOnly(steps)
      && StatusOf(before + steps) == Sent(code)
      && BodyOf(before + steps) == BodyOf(before) + StatusText(code)
  {
    var code := if Resolve(routes, req.verb, req.path).err.URLNotFound? then 404
                else XferRenderer.MethodNotAllowedCode(req.proto);
    assert ServeSteps(g, routes, listeners, w, req) == XferRenderer.ErrorPage(code);
    XferRenderer.ErrorPageOutcome(map[], before, code);
  }

  /**
   * Once a route matched, the after-match-routing listener (when one is
   * registered) runs first, the existence check is made on the repository
   * path as the listener left it, and the handler runs on the rewritten
   * fields only when that repository exists; otherwise Not Found.
   */
  lemma HookThenCheckThenHandler(g: Git, routes: seq<XferRoute>, listeners: map<string, Listener>,
                                 w: World, req: Request, m: XferMatchers.PathMatch, route: XferRoute)
    requires Resolve(routes, req.verb, req.path) == Matched(m, route)
    ensures var initial := ContextFields(req, m.repoPath, m.filePath, None);
      var f := if AfterMatchRouting in listeners then listeners[AfterMatchRouting](initial) else initial;
      var hook := if AfterMatchRouting in listeners then [HookFired(AfterMatchRouting)] else [];
      var found := !(w.fs(GetAbsolutePath(g, f.repoPath)) == StatFailed(NotExist));
      ServeSteps(g, routes, listeners, w, req)
        == hook + [RepoChecked(f.repoPath, found)]
           + if found then HandlerSteps(g, listeners, w, route.handler, f) else XferRenderer.ErrorPage(404)
  {
  }

  /**
   * serviceRPC refuses a request without access with 403 and the standard
   * text, before any command is built.
   */
  lemma NoAccessForbidden(g: Git, w: World, f: ContextFields, rpc: string, before: seq<Step>)
    requires !HasAccess(g, f.request, rpc, true)
    requires StatusOf(before) == Unwritten
    ensures var steps := ServiceRPCSteps(g, w, f, rpc);
      && RendersOnly(steps)
      && StatusOf(before + steps) == Sent(403)
      && BodyOf(before + steps) == BodyOf(before) + "Forbidden"
  {
    XferRenderer.ErrorPageOutcome(map[], before, 403);
  }

  /**
   * With access, a started command gets the request body, then its stdin is
   * closed, and only then are the result Content-Type and 200 written: the
   * command's arguments are `rpc --stateless-rpc .` with the context's
   * environment, and the client receives 200 and exactly git's output.
   */
  lemma StdinClosedBeforeStatus(g: Git, w: World, f: ContextFields, rpc: string, h: Header)
    requires HasAccess(g, f.request, rpc, true)
    requires HeaderGet(f.request, "Content-Encoding") == "gzip" ==> w.gzipOk
    requires var p := w.procs(RPCCommand(g, f, rpc));
      p.stdinPipe.Ok? && p.stdoutPipe.Ok? && p.start.Ok? && p.copyIn.Ok?
    ensures var cmd := RPCCommand(g, f, rpc);
      var steps := ServiceRPCSteps(g, w, f, rpc);
      && |steps| >= 5
      && steps[0] == CommandStarted(cmd) && cmd.args == [rpc, "--stateless-rpc", "."] && cmd.env == f.env
      && steps[1] == StdinCopied(true) && steps[2] == StdinClosed && steps[4] == StatusWritten(200)
      && StatusOf(steps) == Sent(200)
      && BodyOf(steps) == w.procs(cmd).stdout
      && WireHeader(h, steps) == h["Content-Type" := [ResultContentType(rpc)]]
  {
    var cmd := RPCCommand(g, f, rpc);
    var p := w.procs(cmd);
    var head := [CommandStarted(cmd), StdinCopied(true), StdinClosed, HeaderSet("Content-Type", ResultContentType(rpc)), StatusWritten(200)];
    var rest := Response.CopySteps(p.stdout) + (if p.copyOut.Err? then [] else [CommandWaited(p.wait.Ok?)]);
    var steps := ServiceRPCSteps(g, w, f, rpc);
    assert steps == head + rest;
    HeadBeforeStatus(cmd, rpc, h);
    StatusOfAppend(head, rest);
    BodyOfAppend(head, rest);
    WireHeaderAppend(h, head, rest);
    BodyOfAppend(Response.CopySteps(p.stdout), if p.copyOut.Err? then [] else [CommandWaited(p.wait.Ok?)]);
  }

  /** The fixed part of serviceRPC up to the status. */
  lemma HeadBeforeStatus(cmd: CommandSpec, rpc: string, h: Header)
    ensures var head := [CommandStarted(cmd), StdinCopied(true), StdinClosed, HeaderSet("Content-Type", ResultContentType(rpc)), StatusWritten(200)];
      && StatusOf(head) == Sent(200) && BodyOf(head) == ""
      && WireHeader(h, head) == h["Content-Type" := [ResultContentType(rpc)]]
  {
    var s := [CommandStarted(cmd), StdinCopied(true), StdinClosed, HeaderSet("Content-Type", ResultContentType(rpc))];
    var t := [StatusWritten(200)];
    assert s + t == [CommandStarted(cmd), StdinCopied(true), StdinClosed, HeaderSet("Content-Type", ResultContentType(rpc)), StatusWritten(200)];
    SilentPrefix(h, s, t);
    assert BodyOf(t[1..]) == "";
    var started := [CommandStarted(cmd), StdinCopied(true), StdinClosed];
    assert s == started + [HeaderSet("Content-Type", ResultContentType(rpc))];
    HeaderAfterAppend(h, started, [HeaderSet("Content-Type", ResultContentType(rpc))]);
    HeaderAfterNoHeaderSteps(h, started);
    assert [HeaderSet("Content-Type", ResultContentType(rpc))][1..] == [];
  }

  /** A failed copy of the request body renders 500 and stdin is never closed explicitly. */
  lemma CopyInFailure(g: Git, w: World, f: ContextFields, rpc: string, before: seq<Step>)
    requires HasAccess(g, f.request, rpc, true)
    requires HeaderGet(f.request, "Content-Encoding") == "gzip" ==> w.gzipOk
    requires var p := w.procs(RPCCommand(g, f, rpc));
      p.stdinPipe.Ok? && p.stdoutPipe.Ok? && p.start.Ok? && p.copyIn.Err?
    requires StatusOf(before) == Unwritten
    ensures var steps := ServiceRPCSteps(g, w, f, rpc);
      && StdinClosed !in steps
      && StatusOf(before + steps) == Sent(500)
      && BodyOf(before + steps) == BodyOf(before) + "Internal Server Error"
  {
    var cmd := RPCCommand(g, f, rpc);
    assert ServiceRPCSteps(g, w, f, rpc) == CommandSteps(cmd, w.procs(cmd), rpc);
    StartedCopyInFailure(cmd, w.procs(cmd), rpc, before);
  }

  lemma StartedCopyInFailure(cmd: CommandSpec, p: Process, rpc: string, before: seq<Step>)
    requires p.stdinPipe.Ok? && p.stdoutPipe.Ok? && p.start.Ok? && p.copyIn.Err?
    requires StatusOf(before) == Unwritten
    ensures var steps := CommandSteps(cmd, p, rpc);
      && StdinClosed !in steps
      && StatusOf(before + steps) == Sent(500)
      && BodyOf(before + steps) == BodyOf(before) + "Internal Server Error"
  {
    var started := [CommandStarted(cmd), StdinCopied(false)];
    var page := XferRenderer.ErrorPage(500);
    assert CommandSteps(cmd, p, rpc) == started + page;
    SilentPrefix(map[], started, page);
    XferRenderer.ErrorPageOutcome(map[], before, 500);
    StatusOfAppend(before, started + page);
    StatusOfAppend(before, page);
    BodyOfAppend(before, started + page);
    BodyOfAppend(before, page);
  }

  /**
   * The advertisement's body is a pkt-line holding `# service=git-<svc>\n`,
   * a flush-pkt and then the refs: reading it packet by packet gives back
   * exactly those, and the client sees 200 with the advertisement
   * Content-Type. Shared by both snapshots' getInfoRefs.
   */
  lemma AdvertisementDecodes(svc: string, refs: string, h: Header)
    requires |ServiceLine(svc)| + 4 <= MaxPktLength
    ensures var steps := AdvertisedSteps(svc, refs);
      && StatusOf(steps) == Sent(200)
      && ReadPacket(BodyOf(steps)) == Some((Data(ServiceLine(svc)), FlushPkt + refs))
      && ReadPacket(FlushPkt + refs) == Some((Flush, refs))
      && "Content-Type" in WireHeader(h, steps)
      && WireHeader(h, steps)["Content-Type"] == [AdvertisementContentType(svc)]
  {
    var nc := Response.NoCacheSteps();
    var line := PktLine(ServiceLine(svc));
    var tail := [HeaderSet("Content-Type", AdvertisementContentType(svc)), StatusWritten(200),
                 BodyWritten(line), BodyWritten(FlushPkt), BodyWritten(refs)];
    assert AdvertisedSteps(svc, refs) == nc + tail;
    SilentPrefix(h, nc, tail);
    StatusThenThreeWrites(HeaderAfter(h, nc), "Content-Type", AdvertisementContentType(svc), 200, line, FlushPkt, refs);
    PktLineRoundTrip(ServiceLine(svc), FlushPkt + refs);
    FlushRoundTrip(refs);
  }

  /** A header set, a status and three writes: the status, the writes in order as the body, the header as set. */
  lemma StatusThenThreeWrites(h: Header, key: string, value: string, code: int, b1: string, b2: string, b3: string)
    ensures var tail := [HeaderSet(key, value), StatusWritten(code), BodyWritten(b1), BodyWritten(b2), BodyWritten(b3)];
      && StatusOf(tail) == Sent(code)
      && BodyOf(tail) == b1 + (b2 + b3)
      && WireHeader(h, tail) == h[key := [value]]
  {
    var tail := [HeaderSet(key, value), StatusWritten(code), BodyWritten(b1), BodyWritten(b2), BodyWritten(b3)];
    var t := tail[1..][1..];
    assert t == [BodyWritten(b1), BodyWritten(b2), BodyWritten(b3)];
    assert t[1..][1..][1..] == [];
    assert BodyOf(t[1..][1..]) == b3;
    assert BodyOf(t[1..]) == b2 + b3;
    assert BodyOf(t) == b1 + (b2 + b3);
    assert BodyOf(tail[1..]) == BodyOf(t);
    assert WireHeader(h, tail) == WireHeader(h[key := [value]], tail[1..]);
  }

  /**
   * getInfoRefs with smart access runs `svc --stateless-rpc
   * --advertise-refs .` and, when it succeeds, sends its output as the
   * advertisement.
   */
  lemma SmartInfoRefs(g: Git, w: World, f: ContextFields, refs: string)
    requires HasAccess(g, f.request, ServiceType(f.request), false)
    requires w.procs(AdvertiseCommand(g, f, ServiceType(f.request))).output == Success(refs)
    ensures var svc := ServiceType(f.request);
      && AdvertiseCommand(g, f, svc).args == [svc, "--stateless-rpc", "--advertise-refs", "."]
      && InfoRefsSteps(g, w, f) == [CommandRan(AdvertiseCommand(g, f, svc))] + AdvertisedSteps(svc, refs)
  {
  }

  /**
   * Without smart access getInfoRefs runs update-server-info and serves
   * info/refs as no-cache text, or Not Found when it cannot be stat'ed.
   */
  lemma DumbInfoRefs(g: Git, w: World, f: ContextFields)
    requires !HasAccess(g, f.request, ServiceType(f.request), false)
    ensures InfoRefsSteps(g, w, f)
      == [CommandRan(UpdateServerInfoCommand(g, f))] + Response.NoCacheSteps()
         + match GetRequestFileInfo(g, w.fs, f.repoPath, f.filePath)
           case Failure(_) => XferRenderer.ErrorPage(404)
           case Success(info) => ServedFileSteps("text/plain; charset=utf-8", info)
    ensures UpdateServerInfoCommand(g, f).args == ["update-server-info"]
  {
    LogAssoc([CommandRan(UpdateServerInfoCommand(g, f))], Response.NoCacheSteps(),
             FileOrNotFoundSteps(g, w.fs, f, "text/plain; charset=utf-8"));
  }

  /** The handlers that serve a file from the repository. */
  predicate IsStatic(h: Handler) {
    h.GetTextFile? || h.GetInfoPacks? || h.GetLooseObject? || h.GetPackFile? || h.GetIdxFile?
  }

  /** The Content-Type each static handler serves its file with. */
  function StaticContentType(h: Handler): string {
    match h
    case GetTextFile => "text/plain"
    case GetInfoPacks => "text/plain; charset=utf-8"
    case GetLooseObject => "application/x-git-loose-object"
    case GetPackFile => "application/x-git-packed-objects"
    case GetIdxFile => "application/x-git-packed-objects-toc"
    case _ => ""
  }

  /** The cache profile of a static handler: no-cache for the text files, one year for the rest. */
  function StaticCache(h: Handler, now: int): seq<Step> {
    if h.GetTextFile? then Response.NoCacheSteps() else Response.CacheForeverSteps(now)
  }

  /** Either profile only sets headers. */
  lemma StaticCacheSetsOnly(h: Handler, now: int)
    ensures forall i :: 0 <= i < |StaticCache(h, now)| ==> StaticCache(h, now)[i].HeaderSet?
  {
    var cache := StaticCache(h, now);
    assert cache[0].HeaderSet? && cache[1].HeaderSet? && cache[2].HeaderSet?;
  }

  /** The Cache-Control value each profile leaves. */
  lemma StaticCacheControl(h: Handler, now: int, hdr: Header)
    ensures var m := HeaderAfter(hdr, StaticCache(h, now));
      && "Cache-Control" in m
      && m["Cache-Control"] == [if h.GetTextFile? then "no-cache, max-age=0, must-revalidate" else "public, max-age=31536000"]
  {
    if h.GetTextFile? {
      Response.NoCacheHeaders(hdr);
    } else {
      Response.CacheForeverHeaders(hdr, now);
    }
  }

  /** Every static handler is StaticSteps with its cache profile and Content-Type. */
  lemma HandlerIsStatic(g: Git, listeners: map<string, Listener>, w: World, h: Handler, f: ContextFields)
    requires IsStatic(h)
    ensures HandlerSteps(g, listeners, w, h, f) == StaticSteps(g, w.fs, f, StaticCache(h, w.now), StaticContentType(h))
  {
    match h
    case GetTextFile =>
    case GetInfoPacks =>
    case GetLooseObject =>
    case GetPackFile =>
    case GetIdxFile =>
  }

  /**
   * A static handler whose file can be stat'ed hands the response to
   * http.ServeFile with its fixed Content-Type, the file's length and
   * modification time, and the cache profile of its kind: no-cache for the
   * text files, one year for the rest.
   */
  lemma StaticHandlerHeaders(g: Git, listeners: map<string, Listener>, w: World, h: Handler, f: ContextFields, hdr: Header)
    requires IsStatic(h)
    requires GetRequestFileInfo(g, w.fs, f.repoPath, f.filePath).Success?
    ensures var steps := HandlerSteps(g, listeners, w, h, f);
      var info := GetRequestFileInfo(g, w.fs, f.repoPath, f.filePath).value;
      var wire := WireHeader(hdr, steps);
      && StatusOf(steps) == DecidedByFileServer
      && "Content-Type" in wire && wire["Content-Type"] == [StaticContentType(h)]
      && "Content-Length" in wire && wire["Content-Length"] == [Decimal(info.size)]
      && "Last-Modified" in wire && wire["Last-Modified"] == [info.modTime]
      && "Cache-Control" in wire
      && wire["Cache-Control"] == [if h.GetTextFile? then "no-cache, max-age=0, must-revalidate" else "public, max-age=31536000"]
  {
    var cache := StaticCache(h, w.now);
    var info := GetRequestFileInfo(g, w.fs, f.repoPath, f.filePath).value;
    HandlerIsStatic(g, listeners, w, h, f);
    StaticCacheSetsOnly(h, w.now);
    StaticCacheControl(h, w.now, hdr);
    StaticStepsWire(g, w.fs, f, cache, StaticContentType(h), hdr);
    var m := HeaderAfter(hdr, cache);
    assert WireHeader(hdr, HandlerSteps(g, listeners, w, h, f))
      == m["Content-Type" := [StaticContentType(h)]]["Content-Length" := [Decimal(info.size)]]["Last-Modified" := [info.modTime]];
  }

  /** The wire header of a static handler that found its file: the cache headers, then sendFile's three. */
  lemma StaticStepsWire(g: Git, fs: FileSystem, f: ContextFields, cache: seq<Step>, contentType: string, hdr: Header)
    requires forall i :: 0 <= i < |cache| ==> !SendsHeader(cache[i])
    requires GetRequestFileInfo(g, fs, f.repoPath, f.filePath).Success?
    ensures var info := GetRequestFileInfo(g, fs, f.repoPath, f.filePath).value;
      var steps := StaticSteps(g, fs, f, cache, contentType);
      && StatusOf(steps) == DecidedByFileServer
      && WireHeader(hdr, steps)
        == HeaderAfter(hdr, cache)["Content-Type" := [contentType]]["Content-Length" := [Decimal(info.size)]]["Last-Modified" := [info.modTime]]
  {
    var info := GetRequestFileInfo(g, fs, f.repoPath, f.filePath).value;
    SilentPrefix(hdr, cache, ServedFileSteps(contentType, info));
    ServedFileWire(HeaderAfter(hdr, cache), contentType, info);
  }

  /** sendFile's three headers reach the client, and http.ServeFile decides the status. */
  lemma ServedFileWire(h: Header, contentType: string, info: RequestFileInfo)
    ensures StatusOf(ServedFileSteps(contentType, info)) == DecidedByFileServer
    ensures WireHeader(h, ServedFileSteps(contentType, info))
      == h["Content-Type" := [contentType]]["Content-Length" := [Decimal(info.size)]]["Last-Modified" := [info.modTime]]
  {
    var s := ServedFileSteps(contentType, info);
    var h1 := h["Content-Type" := [contentType]];
    var h2 := h1["Content-Length" := [Decimal(info.size)]];
    assert s[1..][1..][1..] == [FileServed(info.absolutePath)];
    assert StatusOf(s) == StatusOf(s[1..]) == StatusOf(s[1..][1..]) == StatusOf(s[1..][1..][1..]);
    assert WireHeader(h2, s[1..][1..]) == WireHeader(h2["Last-Modified" := [info.modTime]], s[1..][1..][1..]);
    assert WireHeader(h1, s[1..]) == WireHeader(h2, s[1..][1..]);
    assert WireHeader(h, s) == WireHeader(h1, s[1..]);
  }

  /** A static handler whose file cannot be stat'ed answers Not Found after its cache headers. */
  lemma StaticHandlerNotFound(g: Git, listeners: map<string, Listener>, w: World, h: Handler, f: ContextFields)
    requires IsStatic(h)
    requires GetRequestFileInfo(g, w.fs, f.repoPath, f.filePath).Failure?
    ensures var steps := HandlerSteps(g, listeners, w, h, f);
      && RendersOnly(steps)
      && StatusOf(steps) == Sent(404)
      && BodyOf(steps) == "Not Found"
  {
    var cache := StaticCache(h, w.now);
    HandlerIsStatic(g, listeners, w, h, f);
    StaticCacheSetsOnly(h, w.now);
    StaticStepsNotFound(g, w.fs, f, cache, StaticContentType(h));
  }

  lemma StaticStepsNotFound(g: Git, fs: FileSystem, f: ContextFields, cache: seq<Step>, contentType: string)
    requires forall i :: 0 <= i < |cache| ==> cache[i].HeaderSet?
    requires GetRequestFileInfo(g, fs, f.repoPath, f.filePath).Failure?
    ensures var steps := StaticSteps(g, fs, f, cache, contentType);
      && RendersOnly(steps)
      && StatusOf(steps) == Sent(404)
      && BodyOf(steps) == "Not Found"
  {
    assert XferHandlers.SendFileSteps(g, fs, f, contentType).None?;
    assert StaticSteps(g, fs, f, cache, contentType) == cache + XferRenderer.ErrorPage(404);
    HeadersThenNotFound(cache);
  }

  /** Headers set before the Not Found page change neither its status nor its body. */
  lemma HeadersThenNotFound(cache: seq<Step>)
    requires forall i :: 0 <= i < |cache| ==> cache[i].HeaderSet?
    ensures var steps := cache + XferRenderer.ErrorPage(404);
      && RendersOnly(steps)
      && StatusOf(steps) == Sent(404)
      && BodyOf(steps) == "Not Found"
  {
    var page := XferRenderer.ErrorPage(404);
    var steps := cache + page;
    SilentPrefix(map[], cache, page);
    XferRenderer.ErrorPageOutcome(map[], [], 404);
    assert [] + page == page;
    assert RendersOnly(page);
    RendersOnlyAppend(cache, page);
  }

  lemma RendersOnlyAppend(a: seq<Step>, b: seq<Step>)
    requires RendersOnly(a) && RendersOnly(b)
    ensures RendersOnly(a + b)
  {
    forall i | 0 <= i < |a + b|
      ensures (a + b)[i].HeaderSet? || (a + b)[i].StatusWritten? || (a + b)[i].BodyWritten?
    {
      if i >= |a| {
        assert (a + b)[i] == b[i - |a|];
      }
    }
  }

  /** A path ending in `x` does not end in `y` when neither of the two ends the other. */
  lemma OtherSuffix(p: string, x: string, y: string)
    requires HasSuffix(p, x) && !HasSuffix(x, y) && !HasSuffix(y, x)
    ensures !HasSuffix(p, y)
  {
    if HasSuffix(p, y) {
      if |y| <= |x| {
        SuffixOfSuffix(p, y, x);
      } else {
        SuffixOfSuffix(p, x, y);
      }
    }
  }

  /**
   * New registers the smart routes always and the eight dumb routes only
   * with the dumb protocol: without it a GET of `<repo>/HEAD` finds no
   * route, with it the HEAD route serves the file as text.
   */
  lemma DumbRoutesOnlyWhenEnabled(prefix: string)
    ensures |BuiltinRoutes(false)| == 3 && |BuiltinRoutes(true)| == 11
    ensures Resolve(BuiltinRoutes(false), "GET", prefix + "/HEAD") == Refused(URLNotFound("GET", prefix + "/HEAD"))
    ensures var r := Resolve(BuiltinRoutes(true), "GET", prefix + "/HEAD");
      r.Matched? && r.route.handler == GetTextFile
  {
    var p := prefix + "/HEAD";
    assert HasSuffix(p, "/HEAD");
    OtherSuffix(p, "/HEAD", "/git-upload-pack");
    OtherSuffix(p, "/HEAD", "/git-receive-pack");
    OtherSuffix(p, "/HEAD", "/info/refs");
    var smart := SmartRoutes();
    assert forall k :: 0 <= k < |smart| ==> smart[k].pattern(p).None?;
    NotFoundIff(BuiltinRoutes(false), "GET", p);
    FallThroughToLater(smart, DumbRoutes(), "GET", p);
    assert DumbRoutes()[0].pattern(p).Some?;
  }

  /**
   * A path ending in `/objects/info/packs` reaches getInfoPacks, registered
   * before the generic info-file route that would also accept it.
   */
  lemma InfoPacksBeforeInfoFile(p: string)
    requires HasSuffix(p, "/objects/info/packs")
    ensures XferMatchers.GetInfoFile(p).Some?
    ensures var r := Resolve(BuiltinRoutes(true), "GET", p);
      r.Matched? && r.route.handler == GetInfoPacks
  {
    var smart, dumb := SmartRoutes(), DumbRoutes();
    InfoPacksSkipsSmart(p);
    FallThroughToLater(smart, dumb, "GET", p);
    InfoPacksSkipsDumbHead(p);
    SkipNonFiring(dumb, 3, "GET", p);
    var r := dumb[3..][0];
    assert r.verb == "GET" && r.handler == GetInfoPacks && r.pattern(p).Some?;
    FirstRouteDecides(dumb[3..], "GET", p);
    InfoPacksIsInfoFile(p, |p| - 19);
  }

  /** No smart route accepts a path ending in `/objects/info/packs`. */
  lemma InfoPacksSkipsSmart(p: string)
    requires HasSuffix(p, "/objects/info/packs")
    ensures forall k :: 0 <= k < |SmartRoutes()| ==> SmartRoutes()[k].pattern(p).None?
  {
    InfoPacksPassesEarlier(p);
    var smart := SmartRoutes();
    assert smart[0].pattern(p).None? && smart[1].pattern(p).None? && smart[2].pattern(p).None?;
  }

  /** Nor do the three dumb routes before getInfoPacks. */
  lemma InfoPacksSkipsDumbHead(p: string)
    requires HasSuffix(p, "/objects/info/packs")
    ensures forall k :: 0 <= k < 3 ==> DumbRoutes()[k].pattern(p).None?
  {
    InfoPacksPassesEarlier(p);
    var dumb := DumbRoutes();
    assert dumb[0].pattern(p).None? && dumb[1].pattern(p).None? && dumb[2].pattern(p).None?;
  }

  /** `/objects/info/packs` is also an info file name. */
  lemma InfoPacksIsInfoFile(p: string, i: nat)
    requires i <= |p| && p[i..] == "/objects/info/packs"
    ensures XferMatchers.GetInfoFile(p).Some?
  {
    var rest := p[i..];
    assert rest[..|PathPatterns.InfoDir|] == PathPatterns.InfoDir;
    assert rest[|PathPatterns.InfoDir|..] == "packs";
    assert PathPatterns.TailAt(PathPatterns.InfoFile, p, i);
  }

  /** No route registered before getInfoPacks accepts a path ending in `/objects/info/packs`. */
  lemma InfoPacksPassesEarlier(p: string)
    requires HasSuffix(p, "/objects/info/packs")
    ensures !HasSuffix(p, "/git-upload-pack") && !HasSuffix(p, "/git-receive-pack") && !HasSuffix(p, "/info/refs")
    ensures !HasSuffix(p, "/HEAD") && !HasSuffix(p, "/objects/info/alternates") && !HasSuffix(p, "/objects/info/http-alternates")
  {
    OtherSuffix(p, "/objects/info/packs", "/git-upload-pack");
    OtherSuffix(p, "/objects/info/packs", "/git-receive-pack");
    OtherSuffix(p, "/objects/info/packs", "/info/refs");
    OtherSuffix(p, "/objects/info/packs", "/HEAD");
    OtherSuffix(p, "/objects/info/packs", "/objects/info/alternates");
    OtherSuffix(p, "/objects/info/packs", "/objects/info/http-alternates");
  }
}
