/**
 * What the older snapshot's server promises about one request: how
 * MatchRouting splits the path, how the routes an embedding program adds
 * relate to the built-in ones, and which status and body the client
 * receives for each handler outcome.
 */
module TransferProperties {
  import opened Wrappers
  import opened Os
  import opened Http
  import opened GoStrings
  import opened GitRepo
  import opened Pkt
  import opened Routing
  import opened RouteErrors
  import opened PathPatterns
  import opened XferSupport
  import opened ArchiveNaming
  import opened TransferHandlers
  import opened TransferServer
  import Response
  import TransferRenderer
  import XferHandlers
  import XferProperties

  /** The status ServeHTTP answers a handler's error with. */
  function ErrorStatus(e: HandlerError): int {
    match e
    case NoAccess(_) => 403
    case SysError(NotExist) => 404
    case SysError(OtherError) => 500
  }

  /**
   * On a response nothing was sent on yet, a handler's error becomes its
   * status with the standard text as the body: 404 for a missing file, 403
   * for the access error, 500 for anything else; nil renders nothing.
   */
  lemma ErrorStepsOutcome(before: seq<Step>, err: Option<HandlerError>)
    requires StatusOf(before) == Unwritten
    ensures err.None? ==> ErrorSteps(err) == []
    ensures err.Some? ==> StatusOf(before + ErrorSteps(err)) == Sent(ErrorStatus(err.value))
    ensures err.Some? ==> BodyOf(before + ErrorSteps(err)) == BodyOf(before) + StatusText(ErrorStatus(err.value))
  {
    TransferRenderer.SameStatusTexts();
    match err
    case None =>
    case Some(e) =>
      var code := ErrorStatus(e);
      TransferRenderer.ErrorPageDropsContentType(map[], before, code, StatusText(code));
  }

  /**
   * A path ending in `/git-upload-pack` routes to serviceRpcUpload for
   * POST, with everything before that suffix as the repository path and
   * `git-upload-pack` as the file path; a GET of it is refused as
   * method-not-allowed.
   */
  lemma UploadPackDispatch(p: string)
    requires HasSuffix(p, "/git-upload-pack") && '\n' !in p
    ensures Dispatch(BuiltinRoutes(), "POST", p) == Routed(p[..|p| - 16], "git-upload-pack", ServiceRpcUpload)
    ensures Dispatch(BuiltinRoutes(), "GET", p) == NotRouted(MethodNotAllowed("GET", p))
  {
    LiteralGroup(p, "/git-upload-pack");
    var a := BuiltinRoutes();
    assert a[0] == Route("POST", ServiceRpcUploadPattern, ServiceRpcUpload);
    FirstRouteDecides(a, "POST", p);
    FirstRouteDecides(a, "GET", p);
  }

  /**
   * `(.*?)/name$` on a newline-free path ending in `/name`: group 1 is what
   * precedes the suffix, and MatchRouting's file path is `name`.
   */
  lemma LiteralGroup(p: string, text: string)
    requires HasSuffix(p, text) && '\n' !in p && |text| >= 1 && text[0] == '/'
    ensures var m := PrefixGroupMatch(Literal(text), p);
      && m.Some? && m.value[1] == p[..|p| - |text|]
      && ReplaceFirst(p, m.value[1] + "/", "") == text[1..]
  {
    LiteralTail(text, p);
    PrefixGroupWithoutNewline(Literal(text), p);
    StripRepoPath(p, text);
  }

  /** Removing the text before a slash-led suffix, and the slash, leaves the rest of the suffix. */
  lemma StripRepoPath(p: string, text: string)
    requires HasSuffix(p, text) && |text| >= 1 && text[0] == '/'
    ensures ReplaceFirst(p, p[..|p| - |text|] + "/", "") == text[1..]
  {
    var n := |p| - |text|;
    assert p[n] == text[0];
    assert p[..n] + "/" == p[..n + 1];
    assert p[n + 1..] == text[1..];
    assert p == p[..n + 1] + p[n + 1..];
    ReplaceAtStart(p, p[..n] + "/", text[1..]);
  }

  /**
   * The routes an embedding program adds are tried after all twelve
   * built-in ones: wherever a built-in route fires, they change nothing; and
   * only where none fires do they decide, as on their own.
   */
  lemma CallerRoutesAfterBuiltins(extra: seq<TransferRoute>, verb: string, path: string)
    ensures (exists k :: 0 <= k < |BuiltinRoutes()| && BuiltinRoutes()[k].pattern(path).Some?) ==>
      Dispatch(BuiltinRoutes() + extra, verb, path) == Dispatch(BuiltinRoutes(), verb, path)
    ensures (forall k :: 0 <= k < |BuiltinRoutes()| ==> BuiltinRoutes()[k].pattern(path).None?) ==>
      Dispatch(BuiltinRoutes() + extra, verb, path) == Dispatch(extra, verb, path)
  {
    if exists k :: 0 <= k < |BuiltinRoutes()| && BuiltinRoutes()[k].pattern(path).Some? {
      ShadowedByEarlier(BuiltinRoutes(), extra, verb, path);
    } else {
      FallThroughToLater(BuiltinRoutes(), extra, verb, path);
    }
  }

  /**
   * ServeHTTP checks the repository before the handler: a missing one is
   * answered 404 without running the handler; an existing one runs it and
   * renders the page for the error it returns.
   */
  lemma RepositoryCheckedFirst(g: Git, routes: seq<TransferRoute>, w: XferHandlers.World, req: Request,
                               repoPath: string, filePath: string, h: Handler)
    requires Dispatch(routes, req.verb, req.path) == Routed(repoPath, filePath, h)
    ensures var steps := ServeSteps(g, routes, w, req);
      && |steps| >= 1 && steps[0] == RepoChecked(repoPath, Exists(g, w.fs, repoPath))
      && (!Exists(g, w.fs, repoPath) ==> StatusOf(steps) == Sent(404) && BodyOf(steps) == "Not Found")
      && (Exists(g, w.fs, repoPath) ==> steps[1..] == HandledSteps(HandlerResult(g, w, h, req, repoPath, filePath)))
  {
    var steps := ServeSteps(g, routes, w, req);
    var found := Exists(g, w.fs, repoPath);
    if !found {
      var page := TransferRenderer.ErrorPage(404, "Not Found");
      assert steps == [RepoChecked(repoPath, found)] + page;
      SilentPrefix(map[], [RepoChecked(repoPath, found)], page);
      TransferRenderer.ErrorPageDropsContentType(map[], [], 404, "Not Found");
      assert [] + page == page;
    }
  }

  /**
   * serviceRpc without access takes no step and returns the access error
   * naming the repository's directory, which ServeHTTP answers with 403.
   */
  lemma ServiceRpcNoAccess(g: Git, w: XferHandlers.World, req: Request, repoPath: string, rpc: string, before: seq<Step>)
    requires !HasAccess(g, req, rpc, true)
    requires StatusOf(before) == Unwritten
    ensures var r := ServiceRpcResult(g, w, req, repoPath, rpc);
      && r.steps == []
      && r.err == Some(NoAccess(NoAccessError(GetAbsolutePath(g, repoPath))))
      && StatusOf(before + HandledSteps(r)) == Sent(403)
      && BodyOf(before + HandledSteps(r)) == BodyOf(before) + "Forbidden"
  {
    var r := ServiceRpcResult(g, w, req, repoPath, rpc);
    ErrorStepsOutcome(before, r.err);
    TransferRenderer.SameStatusTexts();
    assert HandledSteps(r) == ErrorSteps(r.err);
  }

  /**
   * With access and a started command, serviceRpc sets the result
   * Content-Type before starting `rpc --stateless-rpc .`; it never calls
   * WriteHeader, so the first byte of git's output fixes status 200, and
   * the body is exactly that output.
   */
  lemma ServiceRpcStarted(g: Git, w: XferHandlers.World, req: Request, repoPath: string, rpc: string, h: Header)
    requires HasAccess(g, req, rpc, true)
    requires HeaderGet(req, "Content-Encoding") == "gzip" ==> w.gzipOk
    requires var p := w.procs(RpcCommand(g, repoPath, rpc)); p.stdinPipe.Ok? && p.stdoutPipe.Ok? && p.start.Ok?
    ensures var cmd := RpcCommand(g, repoPath, rpc);
      var p := w.procs(cmd);
      var r := ServiceRpcResult(g, w, req, repoPath, rpc);
      && r.err.None?
      && cmd.args == [rpc, "--stateless-rpc", "."]
      && r.steps[..2] == [HeaderSet("Content-Type", ResultContentType(rpc)), CommandStarted(cmd)]
      && BodyOf(HandledSteps(r)) == p.stdout
      && (p.stdout != "" ==> StatusOf(HandledSteps(r)) == Sent(200)
                             && WireHeader(h, HandledSteps(r)) == h["Content-Type" := [ResultContentType(rpc)]])
      && (p.stdout == "" ==> StatusOf(HandledSteps(r)) == Unwritten)
  {
    var cmd := RpcCommand(g, repoPath, rpc);
    var p := w.procs(cmd);
    var r := ServiceRpcResult(g, w, req, repoPath, rpc);
    var ct := ResultContentType(rpc);
    var pre := [HeaderSet("Content-Type", ct), CommandStarted(cmd), StdinCopied(p.copyIn.Ok?), StdinClosed];
    var post := Response.CopySteps(p.stdout) + [CommandWaited(p.wait.Ok?)];
    assert r.steps == pre + post;
    assert HandledSteps(r) == pre + post;
    RpcStepsOutcome(h, ct, cmd, p);
  }

  /** The log of a started RPC: the Content-Type header, the command and its stdin, then git's output and the wait. */
  lemma RpcStepsOutcome(h: Header, ct: string, cmd: CommandSpec, p: Process)
    ensures var pre := [HeaderSet("Content-Type", ct), CommandStarted(cmd), StdinCopied(p.copyIn.Ok?), StdinClosed];
      var steps := pre + (Response.CopySteps(p.stdout) + [CommandWaited(p.wait.Ok?)]);
      && BodyOf(steps) == p.stdout
      && (p.stdout != "" ==> StatusOf(steps) == Sent(200) && WireHeader(h, steps) == h["Content-Type" := [ct]])
      && (p.stdout == "" ==> StatusOf(steps) == Unwritten)
  {
    var pre := [HeaderSet("Content-Type", ct), CommandStarted(cmd), StdinCopied(p.copyIn.Ok?), StdinClosed];
    var copy := Response.CopySteps(p.stdout);
    var post := copy + [CommandWaited(p.wait.Ok?)];
    SilentPrefix(h, pre, post);
    BodyOfAppend(copy, [CommandWaited(p.wait.Ok?)]);
    StatusOfAppend(copy, [CommandWaited(p.wait.Ok?)]);
    PreHeader(h, pre, ct);
    if p.stdout != "" {
      WireHeaderAppend(HeaderAfter(h, pre), copy, [CommandWaited(p.wait.Ok?)]);
    }
  }

  /** A Content-Type set followed by server steps leaves just that header changed. */
  lemma PreHeader(h: Header, pre: seq<Step>, ct: string)
    requires |pre| >= 1 && pre[0] == HeaderSet("Content-Type", ct)
    requires forall i :: 1 <= i < |pre| ==> IsServerStep(pre[i])
    ensures HeaderAfter(h, pre) == h["Content-Type" := [ct]]
  {
    HeaderAfterNoHeaderSteps(h["Content-Type" := [ct]], pre[1..]);
  }

  /**
   * getArchive (and the add-on's HandlerFunc) writes 200 before copying, so
   * once git started the client receives 200 whatever happens next: a
   * failing copy or wait only appends the error's status text to the
   * archive's bytes.
   */
  lemma ArchiveStatusFixedBeforeCopy(cmd: CommandSpec, fileName: string, p: Process, before: seq<Step>)
    requires p.stdoutPipe.Ok? && p.start.Ok?
    requires StatusOf(before) == Unwritten
    ensures var r := ArchiveProcessResult(cmd, fileName, p);
      && StatusOf(before + HandledSteps(r)) == Sent(200)
      && BodyOf(before + HandledSteps(r))
         == BodyOf(before) + p.stdout + (if r.err.Some? then StatusText(ErrorStatus(r.err.value)) else "")
      && (r.err.Some? <==> p.copyOut.Err? || p.wait.Err?)
  {
    var r := ArchiveProcessResult(cmd, fileName, p);
    UnwrittenPrefix(before, HandledSteps(r));
    ArchiveHandledSteps(cmd, fileName, p);
    ConcatAssoc(BodyOf(before), p.stdout, if r.err.Some? then StatusText(ErrorStatus(r.err.value)) else "");
  }

  /** ArchiveStatusFixedBeforeCopy on the handler's own steps, with nothing written before them. */
  lemma ArchiveHandledSteps(cmd: CommandSpec, fileName: string, p: Process)
    requires p.stdoutPipe.Ok? && p.start.Ok?
    ensures var r := ArchiveProcessResult(cmd, fileName, p);
      && StatusOf(HandledSteps(r)) == Sent(200)
      && BodyOf(HandledSteps(r)) == p.stdout + (if r.err.Some? then StatusText(ErrorStatus(r.err.value)) else "")
      && (r.err.Some? <==> p.copyOut.Err? || p.wait.Err?)
  {
    var r := ArchiveProcessResult(cmd, fileName, p);
    var head := [CommandStarted(cmd)] + DownloadHeaderSteps(fileName);
    var copy := [StatusWritten(200)] + Response.CopySteps(p.stdout);
    var tail := ArchiveCopiedResult(p).steps + ErrorSteps(r.err);
    assert HandledSteps(r) == head + copy + tail by {
      assert [CommandStarted(cmd)] + DownloadHeaderSteps(fileName) + [StatusWritten(200)] + Response.CopySteps(p.stdout)
          == head + copy;
    }
    ArchiveHeadSilent(cmd, fileName);
    SilentPrefix(map[], head, copy + tail);
    LogAssoc(head, copy, tail);
    assert StatusOf(copy + tail) == Sent(200);
    BodyOfAppend(copy, tail);
    assert BodyOf(copy) == BodyOf(copy[1..]);
    assert copy[1..] == Response.CopySteps(p.stdout);
    ArchiveTailBody(p, r.err);
  }

  lemma ArchiveHeadSilent(cmd: CommandSpec, fileName: string)
    ensures var head := [CommandStarted(cmd)] + DownloadHeaderSteps(fileName);
      forall i :: 0 <= i < |head| ==> !SendsHeader(head[i])
  {
  }

  /** After the copy: the wait, then the page for the returned error. */
  lemma ArchiveTailBody(p: Process, err: Option<HandlerError>)
    requires err == ArchiveCopiedResult(p).err
    ensures BodyOf(ArchiveCopiedResult(p).steps + ErrorSteps(err)) == if err.Some? then StatusText(ErrorStatus(err.value)) else ""
    ensures err.Some? <==> p.copyOut.Err? || p.wait.Err?
  {
    var s := ArchiveCopiedResult(p).steps;
    assert BodyOf(s) == "" by {
      if !p.copyOut.Err? {
        assert s[1..] == [];
      }
    }
    BodyOfAppend(s, ErrorSteps(err));
    ErrorStepsOutcome([], err);
    assert [] + ErrorSteps(err) == ErrorSteps(err);
  }

  /**
   * getInfoRefs without smart access runs update-server-info, whatever it
   * returns, sets the no-cache headers and serves info/refs as UTF-8 text;
   * a stat error is returned, and ServeHTTP renders it after those headers:
   * 404 for a missing file, 500 for any other error.
   */
  lemma DumbInfoRefs(g: Git, w: XferHandlers.World, req: Request, repoPath: string, filePath: string)
    requires !HasAccess(g, req, ServiceType(req), false)
    ensures UpdateServerInfoCommand(g, repoPath).args == ["update-server-info"]
    ensures var r := InfoRefsResult(g, w, req, repoPath, filePath);
      var head := [CommandRan(UpdateServerInfoCommand(g, repoPath))] + Response.NoCacheSteps();
      match GetRequestFileInfo(g, w.fs, repoPath, filePath)
      case Success(info) =>
        r.err.None? && HandledSteps(r) == head + XferHandlers.ServedFileSteps("text/plain; charset=utf-8", info)
      case Failure(k) =>
        && r.err == Some(SysError(k))
        && HandledSteps(r) == head + ErrorSteps(r.err)
        && StatusOf(HandledSteps(r)) == Sent(if k == NotExist then 404 else 500)
        && BodyOf(HandledSteps(r)) == (if k == NotExist then "Not Found" else "Internal Server Error")
  {
    var r := InfoRefsResult(g, w, req, repoPath, filePath);
    var head := [CommandRan(UpdateServerInfoCommand(g, repoPath))] + Response.NoCacheSteps();
    var sent := SendFileResult(g, w.fs, repoPath, filePath, "text/plain; charset=utf-8");
    assert r == After(head, sent);
    if sent.err.Some? {
      HeadThenError(head, sent.err.value.kind);
    }
  }

  /** Behind steps that send nothing, a system error's page fixes the status and is the whole body. */
  lemma HeadThenError(head: seq<Step>, k: ErrKind)
    requires forall i :: 0 <= i < |head| ==> !SendsHeader(head[i])
    ensures var steps := head + ErrorSteps(Some(SysError(k)));
      && StatusOf(steps) == Sent(if k == NotExist then 404 else 500)
      && BodyOf(steps) == (if k == NotExist then "Not Found" else "Internal Server Error")
  {
    var page := ErrorSteps(Some(SysError(k)));
    SilentPrefix(map[], head, page);
    ErrorStepsOutcome([], Some(SysError(k)));
    assert [] + page == page;
  }

  /**
   * getInfoRefs with smart access runs `svc --stateless-rpc
   * --advertise-refs .` and, when it succeeds, answers 200 with the
   * advertisement: the service pkt-line, a flush-pkt, then the refs.
   */
  lemma SmartInfoRefsDecodes(g: Git, w: XferHandlers.World, req: Request, repoPath: string, filePath: string, refs: string)
    requires HasAccess(g, req, ServiceType(req), false)
    requires w.procs(AdvertiseCommand(g, repoPath, ServiceType(req))).output == Success(refs)
    requires |ServiceLine(ServiceType(req))| + 4 <= MaxPktLength
    ensures var svc := ServiceType(req);
      var r := InfoRefsResult(g, w, req, repoPath, filePath);
      && AdvertiseCommand(g, repoPath, svc).args == [svc, "--stateless-rpc", "--advertise-refs", "."]
      && r.err.None?
      && StatusOf(HandledSteps(r)) == Sent(200)
      && ReadPacket(BodyOf(HandledSteps(r))) == Some((Data(ServiceLine(svc)), FlushPkt + refs))
      && ReadPacket(FlushPkt + refs) == Some((Flush, refs))
  {
    var svc := ServiceType(req);
    var cmd := AdvertiseCommand(g, repoPath, svc);
    var adv := XferHandlers.AdvertisedSteps(svc, refs);
    var r := InfoRefsResult(g, w, req, repoPath, filePath);
    assert HandledSteps(r) == [CommandRan(cmd)] + adv;
    SilentPrefix(map[], [CommandRan(cmd)], adv);
    XferProperties.AdvertisementDecodes(svc, refs, map[]);
  }
}
