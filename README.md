# go-git-http-xfer in Dafny

A model of the Git smart-HTTP and dumb-HTTP server library
go-git-http-xfer, with proofs of what it promises. The library is a Go
`http.Handler`. It matches a request path against an ordered route table.
Each route splits the path into a repository path and a file path. The
library then checks that the repository exists under a root directory, and
then runs a handler. A handler does one of two things:

- it runs `git upload-pack` / `git receive-pack` / `git update-server-info`
  / `git archive` as a subprocess;
- it serves a file from the repository with the right cache headers.

Two snapshots of the library are modelled side by side:

- `githttpxfer`, the newer one: functional options, hook events, handlers
  that render their own error pages;
- `githttptransfer`, the older one: regular-expression routes, handlers that
  return an error which ServeHTTP turns into a page;
- the two archive add-ons, one built on each snapshot.

## How the model is built

- **The response writer.** A `ResponseWriter` keeps one ordered log of
  everything that happens while a request is handled:
  - header sets and adds, `WriteHeader` and `Write`;
  - the server-side steps in between: a hook fired, the repository
    checked, a command started, stdin copied and closed, the command
    waited for, a file handed to `http.ServeFile`.

  Three functions read the log as the client sees it:
  - `StatusOf`: the first WriteHeader or Write fixes the status;
  - `BodyOf`: the concatenation of the writes;
  - `WireHeader`: the header map as it stood when the status was fixed.

  The header map is a field the methods update, tied to the log by
  `Valid()`.
- **Handlers.** Each handler is a method on the server class. It is proved
  to leave exactly the steps described by a function of `XferHandlers`
  (newer snapshot) or `TransferHandlers` (older snapshot). The properties
  are lemmas about those functions (`XferProperties`,
  `TransferProperties`, `ArchiveAddon`).
- **The operating system.** The file system (`os.Stat`), the subprocesses,
  whether a gzip reader can be made, the clock and the working directory
  are oracles passed in as values (`Os`, `XferHandlers.World`). Nothing is
  executed.
- **Regular expressions.** Every regular expression of the routes is written
  as an explicit predicate on the path (`PathPatterns`).
  - A lazy prefix `.*?` followed by a fixed tail and `$` matches at the
    earliest offset where the tail fits.
  - As in Go's RE2, `.` does not match a newline, and `[^/]` does.
- **Both routers.** One generic `Routing.Router` models both `router.go`
  files.

Some facts the model fixes:

- `# service=git-upload-pack\n` is 26 bytes, so its pkt-line prefix is
  `001e` (`Pkt.UploadPackServiceLine`).
- The newer serviceRPC copies the request body in, then the output out,
  one after the other.
- The older archive add-on's HandlerFunc is the same code as getArchive
  (`TransferHandlers.ArchiveResult`).
- An exec environment is `Os.Environ`: a nil `Env`, which inherits the
  server's environment, is kept apart from an empty one.

## Model

| member | source | states |
|---|---|---|
| GitRepo.HasAccess | githttpxfer/git.go:23-36 | access is granted only for upload-pack or receive-pack with its flag on, and only with the matching request Content-Type when that is checked; with those conditions met it is granted |
| GitRepo.ContentTypeCheckOnlyRestricts | githttpxfer/git.go:23-36 | checking the Content-Type can only take access away, never grant it |
| GitRepo.AbsolutePathUnderRoot | githttpxfer/git.go:38-40 | a repository path of plain components, with or without a leading slash, is joined under the root component by component |
| GitRepo.AbsolutePathCanEscapeRoot | githttpxfer/git.go:38-40 | the repository path is not sanitised: `../../etc` under `/data/git` names `/etc` |
| GitRepo.Exists | githttpxfer/git.go:42-48 | a repository is missing exactly when os.Stat of its absolute path reports not-exist; any other stat error counts as existing |
| GitRepo.GetRequestFileInfo | githttpxfer/git.go:57-65 | succeeds exactly when the joined file path can be stat'ed, returning its size, time and absolute path; otherwise returns the stat error's kind |
| GitRepo.FilePathUnderRepository | githttptransfer/git.go:65-73 | a file path of plain components lands inside the repository directory |
| XferGit.GitCommand | githttpxfer/git.go:50-55 | the command runs the git binary with the given arguments in the repository's absolute path, in its own process group, with an inherited environment |
| TransferGit.GitCommand | githttptransfer/git.go:59-63 | the same, without a process group |
| TransferGit.GetInfoRefs | githttptransfer/git.go:49-52 | returns the output of `svc --stateless-rpc --advertise-refs .` run in the repository |
| TransferGit.UpdateServerInfo | githttptransfer/git.go:54-57 | returns the output of `update-server-info` run in the repository |
| Os.Cmd.constructor | githttpxfer/git.go:51 | exec.Command sets the program and arguments and leaves directory and process group unset and the environment nil |
| Os.Cmd.SetEnv | githttpxfer/githttpxfer.go:268 | assigning Env changes the environment and nothing else |
| Os.Cmd.Spec | githttpxfer/git.go:50-55 | the started command's configuration is exactly the fields set on it |
| XferSupport.ServiceType | githttpxfer/support.go:13-19 | the `service` form value without its `git-` prefix when it has one, else "" |
| XferSupport.ServiceTypeStripsOnce | githttpxfer/support.go:18 | only the first `git-` is removed: `git-git-upload-pack` gives `git-upload-pack` |
| XferSupport.ServiceTypeIs | githttpxfer/support.go:13-19 | a non-empty service name is read exactly from the form value `git-` + name |
| Http.HeaderGet | githttpxfer/git.go:25 | the request header's value, or "" when it is absent |
| Http.FormValue | githttpxfer/support.go:14 | the form value, or "" when it is absent |
| Http.ResponseWriter.Set | githttpxfer/renderer.go:8 | Header().Set replaces the key's values with one value and logs the call |
| Http.ResponseWriter.Add | githttptransfer/githttptransfer.go:270-271 | Header().Add appends a value to the key and logs the call |
| Http.ResponseWriter.WriteHeader | githttpxfer/renderer.go:20 | WriteHeader is logged and leaves the header map alone |
| Http.ResponseWriter.Write | githttpxfer/renderer.go:21 | Write is logged and leaves the header map alone |
| Http.StatusOfAppend | githttptransfer/githttptransfer.go:272-281 | once a status is fixed, later WriteHeader calls (an error page after the copy) do not change what the client sees |
| Http.WireHeaderAppend | githttptransfer/renderar.go:18-22 | a header changed after the status was fixed is not sent |
| Http.UnwrittenIffNothingSent | githttpxfer/githttpxfer.go:303-304 | the status is undecided exactly while no step has sent the header |
| Http.SilentPrefix | githttpxfer/githttpxfer.go:294-304 | steps that send nothing, such as server-side steps and header sets, fix neither status nor body; only the header map they leave matters |
| Response.Response.SetContentType | githttptransfer/response.go:23-25 | sets Content-Type to the one value |
| Response.Response.SetContentLength | githttptransfer/response.go:27-29 | sets Content-Length to the one value |
| Response.Response.SetLastModified | githttptransfer/response.go:31-33 | sets Last-Modified to the one value |
| Response.Response.HdrNocache | githttptransfer/response.go:35-39 | logs the three no-cache header sets |
| Response.NoCacheHeaders | githttptransfer/response.go:35-39 | afterwards Expires, Pragma and Cache-Control each hold their one no-cache value, and no other header changed |
| Response.Response.HdrCacheForever | githttptransfer/response.go:41-47 | logs the three cache-forever header sets for the given Unix time |
| Response.CacheForeverHeaders | githttptransfer/response.go:41-47 | Expires is exactly one year (31536000 s) after Date, Cache-Control is public for a year, and no other header changed |
| Response.Response.WriteHeader | githttptransfer/response.go:49-51 | passes the status to the writer |
| Response.Response.Write | githttptransfer/response.go:53-55 | passes the bytes to the writer |
| Response.Response.Copy | githttptransfer/response.go:57-59 | io.Copy writes the reader's bytes; nothing at all is written for an empty reader |
| Response.CopySteps | githttptransfer/response.go:57-59 | the copy's body is the data; it fixes status 200 exactly when there is data |
| Response.Response.PktFlush | githttptransfer/response.go:61-63 | writes the flush packet `0000` |
| Response.Response.PktWrite | githttptransfer/response.go:65-68 | writes the payload framed as one pkt-line |
| Numerals.FormatInt | githttptransfer/response.go:66 | strconv.FormatInt: non-empty, starting with `-` exactly when the number is negative, and digits of the base everywhere else |
| Numerals.FormatUint | githttptransfer/response.go:66 | digits of the base only, no leading zero |
| Numerals.ParseFormatInt | githttptransfer/response.go:66 | reading a formatted number gives the number back |
| Numerals.FormatUintLength | githttptransfer/response.go:66 | a number has at most k digits exactly when it is below base^k |
| Numerals.PadZeros | githttptransfer/response.go:66 | `%04s` left-pads with zeros to four bytes and never truncates |
| Numerals.PadZerosDigits | githttptransfer/response.go:66 | zero padding keeps the digits and their value |
| Pkt.LengthPrefixShape | githttptransfer/response.go:66 | the prefix is the hexadecimal of the payload length plus four, four digits exactly when that fits |
| Pkt.PktLineRoundTrip | githttptransfer/response.go:65-68 | a payload of at most 65531 bytes is read back exactly, leaving what follows untouched |
| Pkt.FlushRoundTrip | githttptransfer/response.go:61-63 | `0000` reads back as a flush packet |
| Pkt.PktLineOverlong | githttptransfer/response.go:65-68 | a longer payload is not cut: its prefix grows past four digits and cannot be read back |
| Pkt.UploadPackServiceLine | githttpxfer/githttpxfer.go:352 | the upload-pack service line is 26 bytes and is framed with `001e` |
| Pkt.ReceivePackServiceLine | githttpxfer/githttpxfer.go:352 | the receive-pack service line is 27 bytes and is framed with `001f` |
| RouteErrors.Message | githttptransfer/error.go:10-21 | a routing error's message names its kind and ends with the path |
| RouteErrors.MessageRoundTrip | githttptransfer/error.go:10-21 | the message determines the kind, method and path, provided the method holds no comma |
| RouteErrors.NoAccessMessage | githttptransfer/error.go:27-29 | `No Access: ` followed by the directory |
| GoPath.Clean | githttpxfer/git.go:39 | path.Clean never returns "" and keeps a leading slash |
| GoPath.Join | githttpxfer/git.go:39 | path.Join is "" exactly when both parts are |
| GoPath.JoinPlainRelative | githttpxfer/git.go:39 | joining a clean root with a clean relative path inserts one slash |
| GoPath.JoinPlainAbsolute | githttpxfer/git.go:39 | joining a clean root with a repository path that starts with a slash removes the doubled slash |
| GoPath.JoinEscapesRoot | githttpxfer/git.go:39 | `..` elements climb out of the first argument |
| GoPath.Base | githttptransfer/githttptransfer.go:248-249 | path.Base is non-empty, has no slash unless it is `/`, and is `.` for "" |
| GoPath.BaseOfPlainPath | githttptransfer/githttptransfer.go:249 | for a path not ending in a slash, the base is the text after its last slash |
| GoPath.Ext | githttptransfer/githttptransfer.go:251 | path.Ext is "" or a dot-led suffix of the path with no further dot or slash |
| GoStrings.Index | githttpxfer/githttpxfer.go:72-73 | the first offset where the pattern occurs, -1 exactly when it occurs nowhere |
| GoStrings.ReplaceFirst | githttpxfer/githttpxfer.go:72-73 | strings.Replace with n = 1 rewrites only the first occurrence and leaves the string alone when there is none |
| GoStrings.LastIndexOf | githttptransfer/githttptransfer.go:250 | the offset of the last occurrence of the byte, or -1 |
| GoStrings.FirstField | githttptransfer/githttptransfer.go:248 | strings.Split(...)[0]: the longest prefix free of the separator |
| PathPatterns.FirstTail | githttpxfer/githttpxfer.go:43-61 | the earliest offset where a route's tail matches to the end of the path, -1 exactly when none does |
| PathPatterns.LineStart | githttptransfer/githttptransfer.go:17-28 | where a `.*` ending at an offset can start at the earliest: just after the last newline |
| PathPatterns.TailGroupMatch | githttpxfer/githttpxfer.go:43-61 | `.*?(T)$` matches exactly when the tail fits somewhere; group 1 is the path from the earliest such offset |
| PathPatterns.PrefixGroupMatch | githttptransfer/githttptransfer.go:17-28 | `(.*?)T$` matches exactly when the tail fits somewhere; group 1 runs from the line start to the earliest such offset |
| PathPatterns.PrefixGroupThenTail | githttptransfer/githttptransfer.go:17-28 | the whole match is group 1 followed by the tail |
| PathPatterns.PrefixGroupWithoutNewline | githttptransfer/githttptransfer.go:17-28 | without newlines, group 1 is everything before the earliest tail |
| PathPatterns.LiteralTail | githttptransfer/githttptransfer.go:17-23 | a literal tail matches exactly when the path ends with it |
| PathPatterns.FixedLengthTail | githttptransfer/githttptransfer.go:25-27 | a fixed-length tail matches only at its length from the end |
| PathPatterns.LooseObjectShape | githttptransfer/githttptransfer.go:25 | a path ending in `/objects/xx/` + 38 hex digits matches right before that ending |
| PathPatterns.PackFileShape | githttptransfer/githttptransfer.go:26-27 | a path ending in `/objects/pack/pack-` + 40 hex digits + extension matches right before that ending |
| PathShapes.SuffixOnlyAtEnd | githttpxfer/githttpxfer.go:72 | in a well-formed path whose components do not start like the suffix, the first occurrence of the suffix is at the end |
| XferMatchers.MatchSuffix | githttpxfer/githttpxfer.go:68-75 | matches exactly when the path ends with the suffix; the repository path is as much shorter as the suffix is long |
| XferMatchers.FindStringSubmatch | githttpxfer/githttpxfer.go:77-86 | matches exactly when the expression does; the repository path is as long as the offset of group 1 |
| XferMatchers.SplitAtOnlyOccurrence | githttpxfer/githttpxfer.go:72-73 | when the ending occurs first at its end position, the repository path is what precedes it and the file path is the ending without its slash |
| XferMatchers.MatchSuffixOnlyAtEnd | githttpxfer/githttpxfer.go:68-75 | the same split for matchSuffix |
| XferMatchers.MatchSuffixWellFormed | githttpxfer/githttpxfer.go:68-75 | a well-formed repository path followed by the suffix is split as intended |
| XferMatchers.FindWellFormed | githttpxfer/githttpxfer.go:77-86 | the same for the regular-expression matchers |
| XferMatchers.TailStartsWithSlash | githttpxfer/githttpxfer.go:43-58 | every non-literal tail begins with a slash |
| XferMatchers.FirstOccurrenceQuirk | githttpxfer/githttpxfer.go:72-73 | `/HEAD/x/HEAD` gives repository `/x/HEAD` and file path the whole path, since the first occurrence is removed |
| XferMatchers.QuirkRepoPath | githttpxfer/githttpxfer.go:72 | the first `/HEAD` is the one removed |
| XferMatchers.QuirkFilePath | githttpxfer/githttpxfer.go:73 | `/x/HEAD/` does not occur, so nothing is removed |
| XferMatchers.LooseObjectMatcher | githttpxfer/githttpxfer.go:48-51 | the loose-object matcher fires exactly when the last 50 bytes are `/objects/`, 2 hex digits, `/`, 38 hex digits |
| XferMatchers.PackMatchers | githttpxfer/githttpxfer.go:53-61 | the pack and index matchers fire exactly when the path ends with a pack name and the extension |
| XferMatchers.InfoFileTailAtLastSlash | githttpxfer/githttpxfer.go:43 | the info-file tail's name starts after the path's last slash |
| XferMatchers.InfoFileMatcher | githttpxfer/githttpxfer.go:43-46 | the info-file matcher fires exactly when the last slash ends `/objects/info/` |
| XferMatchers.InfoFileShape | githttpxfer/githttpxfer.go:43 | a slash-free name after `/objects/info/` is found right after the prefix |
| Routing.FirstFiring | githttpxfer/router.go:17-18 | the index of the first route whose pattern fires; every earlier one stays silent |
| Routing.Router.constructor | githttpxfer/router.go:39-41 | a new router has no routes |
| Routing.Router.Add | githttpxfer/router.go:9-14 | a route is appended after all earlier ones |
| Routing.Router.Match | githttpxfer/router.go:16-37 | returns the match and route of the first firing pattern when its method fits, method-not-allowed when it does not, URL-not-found when none fires |
| Routing.MatchedIff | githttptransfer/router.go:18-38 | a request is matched exactly when some route fires, all earlier stay silent and that route has the request's method |
| Routing.NotFoundIff | githttptransfer/router.go:18-38 | URL-not-found exactly when no pattern fires |
| Routing.MethodNotAllowedDespiteLaterFit | githttpxfer/router.go:17-25 | a first firing route with another method refuses the request even when a later route would fit |
| Routing.FirstFiringAppend | githttptransfer/router.go:11-16 | routes added later are consulted only when no earlier route fires |
| Routing.ShadowedByEarlier | githttptransfer/githttptransfer.go:109-111 | a table extended at the end resolves as before wherever an earlier route fires |
| Routing.FallThroughToLater | githttptransfer/githttptransfer.go:109-111 | where no earlier route fires, the appended routes decide as if alone |
| Routing.SkipNonFiring | githttpxfer/router.go:16-37 | routes whose pattern does not fire are passed over: the match is decided by the remaining routes alone |
| XferContext.Context.constructor | githttpxfer/context.go:29-36 | a context holds the writer, request, repository and file path, and a nil environment, so commands inherit the server's |
| XferContext.Context.SetRequest | githttpxfer/context.go:46-48 | replaces the request and nothing else |
| XferContext.Context.SetRepoPath | githttpxfer/context.go:54-56 | replaces the repository path and nothing else |
| XferContext.Context.SetFilePath | githttpxfer/context.go:62-64 | replaces the file path and nothing else |
| XferContext.Context.SetEnv | githttpxfer/context.go:70-72 | replaces the environment and nothing else |
| TransferContext.NewContext | githttptransfer/context.go:23-30 | a context holds a fresh Response on the writer, the request, repository and file path |
| XferEvent.EmitResult | githttpxfer/githttpxfer.go:221-226 | with no listener for the key nothing happens; otherwise its listener rewrites the fields and the firing is logged |
| XferEvent.OnOverwrites | githttpxfer/githttpxfer.go:228-230 | a later listener for the same key replaces the earlier one; other keys are unaffected |
| XferEvent.Event.constructor | githttpxfer/githttpxfer.go:205-207 | no listeners |
| XferEvent.Event.On | githttpxfer/githttpxfer.go:228-230 | registers the listener for its key |
| XferEvent.Event.Emit | githttpxfer/githttpxfer.go:221-226 | the context's fields and the log change as EmitResult says; the header does not |
| XferRenderer.MethodNotAllowedCode | githttpxfer/renderer.go:9-15 | 405 for HTTP/1.1, 400 for any other protocol |
| XferRenderer.ErrorPageOutcome | githttpxfer/renderer.go:18-34 | on an unsent response, an error page fixes the status, appends the status text and sends Content-Type text/plain |
| XferRenderer.RenderMethodNotAllowed | githttpxfer/renderer.go:7-16 | logs Content-Type, then the 405 or 400 status and text |
| XferRenderer.RenderNotFound | githttpxfer/renderer.go:18-22 | logs Content-Type, 404, `Not Found` |
| XferRenderer.RenderNoAccess | githttpxfer/renderer.go:24-28 | logs Content-Type, 403, `Forbidden` |
| XferRenderer.RenderInternalServerError | githttpxfer/renderer.go:30-34 | logs Content-Type, 500, `Internal Server Error` |
| TransferRenderer.ErrorPageDropsContentType | githttptransfer/renderar.go:18-34 | status and body are as intended, but the Content-Type is set too late: the handler's header map at WriteHeader does not hold its text/plain |
| TransferRenderer.SameStatusTexts | githttptransfer/renderar.go:10-32 | the literal texts equal the standard status texts |
| TransferRenderer.NotFoundWithoutContentType | githttptransfer/renderar.go:18-22 | for Not Found on a fresh response the handler's header map at WriteHeader has no Content-Type key, where the newer page has text/plain |
| TransferRenderer.RenderMethodNotAllowed | githttptransfer/renderar.go:7-16 | logs the 405 or 400 status, its text, then Content-Type |
| TransferRenderer.RenderNotFound | githttptransfer/renderar.go:18-22 | logs 404, `Not Found`, then Content-Type |
| TransferRenderer.RenderNoAccess | githttptransfer/renderar.go:24-28 | logs 403, `Forbidden`, then Content-Type |
| TransferRenderer.RenderInternalServerError | githttptransfer/renderar.go:30-34 | logs 500, `Internal Server Error`, then Content-Type |
| XferServer.CollectOptions | githttpxfer/githttpxfer.go:88-112 | each feature is on exactly when its disabling option is absent |
| XferServer.AddBuiltinRoutes | githttpxfer/githttpxfer.go:136-149 | appends the three smart routes, then the eight dumb routes when enabled |
| XferServer.GitHTTPXfer.constructor | githttpxfer/githttpxfer.go:124-150 | the git helper carries the enabled services, the router holds the built-in routes, no listeners |
| XferServer.New | githttpxfer/githttpxfer.go:114-151 | fails exactly when the root is empty and the working directory cannot be read; otherwise the root is the given path or the working directory |
| XferServer.MatchedSteps | githttpxfer/githttpxfer.go:175-184 | after a match: the after-match-routing hook, then the existence check on the possibly rewritten repository, then the handler or Not Found; stated by XferProperties.HookThenCheckThenHandler |
| XferServer.GitHTTPXfer.ServeHTTP | githttpxfer/githttpxfer.go:164-185 | the log grows by exactly what ServeSteps describes |
| XferServer.GitHTTPXfer.ServeMatched | githttpxfer/githttpxfer.go:175-184 | the log grows by exactly what MatchedSteps describes |
| XferServer.GitHTTPXfer.ServeRepository | githttpxfer/githttpxfer.go:179-184 | the existence check on the context's repository, then the handler when it exists and Not Found otherwise |
| XferServer.GitHTTPXfer.RunHandler | githttpxfer/githttpxfer.go:184 | the route's handler leaves exactly HandlerSteps |
| XferServer.GitHTTPXfer.HookedRPC | githttpxfer/githttpxfer.go:232-240 | the before-upload-pack or before-receive-pack hook fires, then serviceRPC runs on the rewritten context |
| XferServer.GitHTTPXfer.ServiceRPC | githttpxfer/githttpxfer.go:242-316 | the log grows by exactly ServiceRPCSteps |
| XferServer.GitHTTPXfer.RunRPCCommand | githttpxfer/githttpxfer.go:266-290 | pipes and start, each failure rendering 500 |
| XferServer.GitHTTPXfer.StreamRPC | githttpxfer/githttpxfer.go:292-315 | copy in (500 on failure), close stdin, Content-Type and 200, copy out, wait |
| XferServer.GitHTTPXfer.GetInfoRefs | githttpxfer/githttpxfer.go:324-355 | the log grows by exactly InfoRefsSteps |
| XferServer.GitHTTPXfer.DumbInfoRefs | githttpxfer/githttpxfer.go:328-338 | update-server-info, no-cache headers, then info/refs or Not Found |
| XferServer.GitHTTPXfer.SmartInfoRefs | githttpxfer/githttpxfer.go:340-354 | the advertising command, then Not Found or the framed advertisement |
| XferServer.GitHTTPXfer.Advertise | githttpxfer/githttpxfer.go:343-354 | the command's failure renders Not Found; its output is framed |
| XferServer.GitHTTPXfer.WriteAdvertisement | githttpxfer/githttpxfer.go:349-354 | no-cache headers, Content-Type, 200, service pkt-line, flush, refs |
| XferServer.GitHTTPXfer.WriteFramed | githttpxfer/githttpxfer.go:352-354 | the service pkt-line, a flush-pkt, then the refs as they are |
| XferServer.GitHTTPXfer.GetInfoPacks | githttpxfer/githttpxfer.go:357-362 | cache-forever headers, then the file as UTF-8 text or Not Found |
| XferServer.GitHTTPXfer.GetLooseObject | githttpxfer/githttpxfer.go:364-369 | cache-forever headers, then the file as a loose object or Not Found |
| XferServer.GitHTTPXfer.GetPackFile | githttpxfer/githttpxfer.go:371-377 | cache-forever headers, then the file as packed objects or Not Found |
| XferServer.GitHTTPXfer.GetIdxFile | githttpxfer/githttpxfer.go:379-384 | cache-forever headers, then the file as a pack index or Not Found |
| XferServer.GitHTTPXfer.GetTextFile | githttpxfer/githttpxfer.go:386-391 | no-cache headers, then the file as plain text or Not Found |
| XferServer.GitHTTPXfer.SendFileOrNotFound | githttpxfer/githttpxfer.go:386-391 | sendFile, and Not Found exactly where it returns the stat error |
| XferServer.GitHTTPXfer.SendFile | githttpxfer/githttpxfer.go:393-404 | succeeds exactly when the file can be stat'ed; then Content-Type, Content-Length, Last-Modified, http.ServeFile, else nothing |
| XferHandlers.WriteServedFile | githttpxfer/githttpxfer.go:399-402 | Content-Type, Content-Length as the decimal size, Last-Modified as the HTTP date, then the file served, in that order |
| XferProperties.RoutingErrorRendersOnlyPage | githttpxfer/githttpxfer.go:164-173 | a routing error renders only its page: 404 for a missing route, 405 or 400 for a wrong method, with the status text as body |
| XferProperties.HookThenCheckThenHandler | githttpxfer/githttpxfer.go:175-184 | after a match the hook runs first, the rewritten repository is checked, and the handler runs only when it exists |
| XferProperties.NoAccessForbidden | githttpxfer/githttpxfer.go:246-249 | serviceRPC without access renders only 403 `Forbidden` |
| XferProperties.StdinClosedBeforeStatus | githttpxfer/githttpxfer.go:266-315 | `rpc --stateless-rpc .` starts with the context's environment, the body is copied in and stdin closed before status 200 is written; the body is git's output, and Content-Type is the result type |
| XferProperties.HeadBeforeStatus | githttpxfer/githttpxfer.go:294-304 | nothing is sent before the 200 |
| XferProperties.CopyInFailure | githttpxfer/githttpxfer.go:294-298 | a failure copying the body in renders 500 and stdin is never closed |
| XferProperties.StartedCopyInFailure | githttpxfer/githttpxfer.go:294-298 | the same, from a started command |
| XferProperties.AdvertisementDecodes | githttpxfer/githttpxfer.go:349-354 | the advertisement is 200 with the advertisement Content-Type, and its body reads back as the service pkt-line, a flush-pkt and the refs |
| XferProperties.StatusThenThreeWrites | githttpxfer/githttpxfer.go:351-354 | a status then three writes give that status and the concatenated body |
| XferProperties.SmartInfoRefs | githttpxfer/githttpxfer.go:340-354 | with smart access getInfoRefs runs `svc --stateless-rpc --advertise-refs .` and then advertises its output |
| XferProperties.DumbInfoRefs | githttpxfer/githttpxfer.go:328-338 | without smart access getInfoRefs runs update-server-info, sets no-cache headers, then serves info/refs as UTF-8 text or Not Found |
| XferProperties.StaticCacheControl | githttpxfer/githttpxfer.go:357-391 | text files are no-cache; info/packs, objects, packs and indexes are cached for a year |
| XferProperties.HandlerIsStatic | githttpxfer/githttpxfer.go:357-391 | each static handler serves with its own content type and cache profile |
| XferProperties.StaticHandlerHeaders | githttpxfer/githttpxfer.go:357-404 | a static handler on a file that exists hands over to http.ServeFile with the content type, size, modification time and cache headers of its profile |
| XferProperties.StaticStepsWire | githttpxfer/githttpxfer.go:393-404 | the same, for any cache header sequence |
| XferProperties.ServedFileWire | githttpxfer/githttpxfer.go:399-402 | the three file headers are on the wire when http.ServeFile takes over |
| XferProperties.StaticHandlerNotFound | githttpxfer/githttpxfer.go:357-391 | a static handler on a file that cannot be stat'ed renders only 404 `Not Found` |
| XferProperties.StaticStepsNotFound | githttpxfer/githttpxfer.go:393-398 | the same, for any cache header sequence |
| XferProperties.OtherSuffix | githttpxfer/githttpxfer.go:15-41 | a path ending in one built-in suffix does not end in a different unrelated one |
| XferProperties.DumbRoutesOnlyWhenEnabled | githttpxfer/githttpxfer.go:136-149 | 3 routes without the dumb protocol, 11 with it; a GET of `/HEAD` is not found without them and served as a text file with them |
| XferProperties.InfoPacksBeforeInfoFile | githttpxfer/githttpxfer.go:144-145 | `/objects/info/packs` also matches the info-file pattern, but the info-packs route, registered first, serves it |
| XferProperties.InfoPacksIsInfoFile | githttpxfer/githttpxfer.go:43 | the info-file pattern fires on `/objects/info/packs` |
| XferProperties.InfoPacksPassesEarlier | githttpxfer/githttpxfer.go:136-143 | none of the routes before info-packs fires on it |
| ArchiveNaming.Derive | githttptransfer/githttptransfer.go:248-252 | fails exactly when the file's base name has no dot, where the slice panics; otherwise the tree and format glue back to the file name, the format has no dot, and the repository name is a dot-free prefix of the repository's base name |
| ArchiveNaming.ArchiveArgs | githttptransfer/githttptransfer.go:254 | `archive --format=<format> --prefix=<...>/ <tree>` |
| ArchiveNaming.ContentDisposition | githttptransfer/githttptransfer.go:270 | `attachment; filename="..."` |
| ArchiveNaming.ExtensionName | githttptransfer/githttptransfer.go:249-252 | `stem.format` with a dot-free format gives that tree and format |
| ArchiveNaming.LastDotBeforeExtension | githttptransfer/githttptransfer.go:250 | the last dot of `stem.format` is the one before the format |
| ArchiveNaming.BaseAfterSlash | githttptransfer/githttptransfer.go:249 | the base of `dir/name` is `name` |
| ArchiveNaming.FirstFieldBeforeDot | githttptransfer/githttptransfer.go:248 | the repository name is the base up to its first dot |
| ArchiveNaming.DeriveFromParts | githttptransfer/githttptransfer.go:248-254 | `dir/repo.suffix` with `fileDir/stem.format` gives the archive of tree `stem` in that format, downloaded as `stem.format`, prefixed `repo-stem/` |
| ArchiveAddon.Pattern | addon/handler/archive/archive.go:14-20 | "" exactly when the expression does not match; otherwise the path's tail from `/archive/` at its earliest offset, ending in `.zip` or `.tar` |
| ArchiveAddon.PatternEarliest | addon/handler/archive/archive.go:14-20 | the group starts at the earliest offset where the archive tail fits |
| ArchiveAddon.DownloadHeadSendsNothing | addon/handler/archive/archive.go:57-59 | the download headers send neither status nor body |
| ArchiveAddon.StartFailureRenders500 | addon/handler/archive/archive.go:45-55 | a pipe or start failure renders 500 and nothing is started |
| ArchiveAddon.StartedOutcome | addon/handler/archive/archive.go:57-67 | after a start: 200 once any output is copied, with the output as the body, plus the 500 text after a copy or wait failure; a 500 only when nothing was copied |
| ArchiveAddon.CopiedOutcome | addon/handler/archive/archive.go:61-67 | a copy failure renders 500; otherwise the wait, with 500 when it fails |
| ArchiveAddon.DownloadHeaderOnWire | addon/handler/archive/archive.go:57-61 | with output, the client receives octet-stream, the Content-Disposition and binary transfer encoding |
| ArchiveAddon.DownloadHeaders | addon/handler/archive/archive.go:57-59 | Content-Type is set and the two other headers are appended to what was there |
| ArchiveAddon.ArchiveXfer.constructor | addon/handler/archive/archive.go:24-26 | wraps the given server |
| ArchiveAddon.ArchiveXfer.Archive | addon/handler/archive/archive.go:32-68 | the log grows by exactly ArchiveSteps: a panic without a dot, else the command's steps |
| ArchiveAddon.ArchiveXfer.StreamArchive | addon/handler/archive/archive.go:45-67 | pipe and start, download headers, copy, finish |
| ArchiveAddon.ArchiveXfer.FinishArchive | addon/handler/archive/archive.go:61-67 | copy failure or wait and its failure |
| ArchiveHandler.AddedRouteNeverReached | addon/archivehandler/archivehandler.go:14-17 | added after the built-in routes, the add-on's route changes no dispatch, because the built-in archive route has the same expression |
| ArchiveHandler.CoveredRouteShadowed | addon/archivehandler/archivehandler.go:14-17 | a route that fires only where the last route fires changes nothing when appended |
| TransferServer.AddBuiltinRoutes | githttptransfer/githttptransfer.go:46-57 | appends the twelve built-in routes in order |
| TransferServer.GitHttpTransfer.constructor | githttptransfer/githttptransfer.go:42-58 | the git helper carries the flags and the router holds the built-in routes |
| TransferServer.New | githttptransfer/githttptransfer.go:31-59 | fails exactly when the root is empty and the working directory cannot be read |
| TransferServer.GitHttpTransfer.AddRoute | githttptransfer/githttptransfer.go:109-111 | the embedding program's route is appended |
| TransferServer.GitHttpTransfer.MatchRouting | githttptransfer/githttptransfer.go:99-107 | returns what Dispatch describes: group 1 as the repository path, the path without the first `repo/` as file path |
| TransferServer.GitHttpTransfer.ServeHTTP | githttptransfer/githttptransfer.go:66-97 | the log grows by exactly ServeSteps |
| TransferServer.GitHttpTransfer.ServeRouted | githttptransfer/githttptransfer.go:78-96 | the existence check, then Not Found or the handler and its error page |
| TransferServer.GitHttpTransfer.RenderError | githttptransfer/githttptransfer.go:85-96 | not-exist gives Not Found, the access error Forbidden, anything else 500, nil nothing |
| TransferServer.GitHttpTransfer.RunHandler | githttptransfer/githttptransfer.go:85 | the handler leaves HandlerResult's steps and returns its error |
| TransferServer.GitHttpTransfer.ServiceRpc | githttptransfer/githttptransfer.go:128-178 | leaves ServiceRpcResult's steps and returns its error |
| TransferServer.GitHttpTransfer.RunRpcProcess | githttptransfer/githttptransfer.go:155-176 | pipe and start errors are returned; stdin, copy and wait errors are ignored |
| TransferServer.GitHttpTransfer.GetInfoRefs | githttptransfer/githttptransfer.go:180-203 | leaves InfoRefsResult's steps and returns its error |
| TransferServer.GitHttpTransfer.DumbInfoRefs | githttptransfer/githttptransfer.go:184-188 | update-server-info, whose result is ignored, no-cache headers, then sendFile and its error |
| TransferServer.GitHttpTransfer.SmartInfoRefs | githttptransfer/githttptransfer.go:190-202 | the command's error is returned; otherwise the advertisement |
| TransferServer.GitHttpTransfer.GetInfoPacks | githttptransfer/githttptransfer.go:205-208 | cache-forever headers, then sendFile as UTF-8 text |
| TransferServer.GitHttpTransfer.GetLooseObject | githttptransfer/githttptransfer.go:210-213 | cache-forever headers, then sendFile as a loose object |
| TransferServer.GitHttpTransfer.GetPackFile | githttptransfer/githttptransfer.go:215-218 | cache-forever headers, then sendFile as packed objects |
| TransferServer.GitHttpTransfer.GetIdxFile | githttptransfer/githttptransfer.go:220-223 | cache-forever headers, then sendFile as a pack index |
| TransferServer.GitHttpTransfer.GetTextFile | githttptransfer/githttptransfer.go:225-228 | no-cache headers, then sendFile as plain text |
| TransferServer.GitHttpTransfer.SendFile | githttptransfer/githttptransfer.go:230-242 | the stat error is returned with nothing written; otherwise the three headers and http.ServeFile |
| TransferServer.GitHttpTransfer.GetArchive | githttptransfer/githttptransfer.go:244-283 | leaves ArchiveResult's steps and returns its error |
| TransferServer.GitHttpTransfer.RunArchiveProcess | githttptransfer/githttptransfer.go:257-282 | pipe and start errors are returned; then the download head, copy and wait, returning their errors |
| TransferServer.GitHttpTransfer.WriteDownloadHead | githttptransfer/githttptransfer.go:269-272 | the three download headers, then status 200 |
| TransferProperties.ErrorStepsOutcome | githttptransfer/githttptransfer.go:85-96 | on an unsent response a handler error becomes status 404, 403 or 500 with its status text as body; nil renders nothing |
| TransferProperties.UploadPackDispatch | githttptransfer/githttptransfer.go:99-107 | a newline-free path ending in `/git-upload-pack` routes POST to serviceRpcUpload with the text before the suffix as repository path and `git-upload-pack` as file path; GET is method-not-allowed |
| TransferProperties.LiteralGroup | githttptransfer/githttptransfer.go:102-103 | for a literal route, group 1 is the text before the suffix and the file path is the suffix without its slash |
| Routing.FirstRouteDecides | githttptransfer/router.go:18-38 | when the first route fires it alone decides |
| TransferProperties.CallerRoutesAfterBuiltins | githttptransfer/githttptransfer.go:109-111 | routes the embedding program adds change nothing where a built-in route fires, and decide as if alone where none does |
| TransferProperties.RepositoryCheckedFirst | githttptransfer/githttptransfer.go:78-85 | the repository is checked before the handler; a missing one gives 404 `Not Found` without running it |
| TransferProperties.ServiceRpcNoAccess | githttptransfer/githttptransfer.go:131-133 | without access serviceRpc writes nothing and returns the access error naming the absolute directory; the client gets 403 `Forbidden` |
| TransferProperties.ServiceRpcStarted | githttptransfer/githttptransfer.go:150-176 | Content-Type before `rpc --stateless-rpc .` starts; no WriteHeader, so 200 only once output is copied, the body being exactly git's output |
| TransferProperties.PreHeader | githttptransfer/githttptransfer.go:150 | only the Content-Type changes before the copy |
| TransferProperties.ArchiveStatusFixedBeforeCopy | githttptransfer/githttptransfer.go:264-282 | after a start the status is always 200, since it is written before the copy; a copy or wait failure only appends `Internal Server Error` or `Not Found` text to the archive bytes, and an error is returned exactly then |
| TransferProperties.ArchiveTailBody | githttptransfer/githttptransfer.go:274-282 | after the copy only the error page adds to the body |
| TransferProperties.DumbInfoRefs | githttptransfer/githttptransfer.go:183-188 | without smart access: update-server-info, the no-cache headers, then info/refs served as UTF-8 text; a stat error is returned and rendered after the headers as 404 `Not Found` for a missing file, 500 otherwise |
| TransferProperties.SmartInfoRefsDecodes | githttptransfer/githttptransfer.go:190-202 | with smart access the command is `svc --stateless-rpc --advertise-refs .`; on success the client gets 200 and a body reading back as the service pkt-line, a flush-pkt and the refs |

## Left out

- Header keys are not canonicalised as net/http does. They are compared as written; the server and this model write them in canonical form.
- sync.Pool buffer reuse is not modelled. It does not change what is written.
- cleanUpProcessGroup in githttpxfer/support.go is not modelled. It is not called from the modelled core.
- gzip decoding is not modelled. Only whether gzip.NewReader succeeds is an oracle.
- The older serviceRpc reads the body with ioutil.ReadAll and ignores its error. The body is not modelled.
- Time formatting is not modelled: os.Stat's modification time arrives already in http.TimeFormat, and the clock is the Unix time of a given World.
- int64 overflow in `now + 31536000` and in Content-Length is not modelled. Integers are unbounded.
- The logger, SetLogger, log.Fatalf and log.Printf are left out: they are output only.
- The older New calls log.Fatalf when the working directory cannot be read. It is modelled as a failed result.
- The example program is left out.
- Listeners are modelled by how they rewrite the context's fields. A listener that writes to the response is not modelled.
- Handlers registered by an embedding program are modelled by one step and a given error.
- Deferred Close calls are not modelled. They come after everything modelled and write nothing.
- A partial write before a failing copy is not modelled. A failing copy is modelled as writing the whole output and then reporting the failure.
- A panic (indexing a missing regexp group, slicing a file name without a dot) is modelled as a terminal `Panicked` step, or as `GroupMissing` for dispatch. Recovery by net/http is not modelled.
- Go's regexp engine in general is not modelled. Only the fixed expressions of the routes are, as explicit predicates.
- path.Clean is modelled on `/`-separated elements. Runs of slashes, `.` and `..` are handled. It follows the element-wise rules of path.Clean's documentation; that it gives the same result as Go's byte-scanning implementation is not proved.
- http.ServeFile is modelled as one step that decides the status itself. Range requests, If-Modified-Since and directory listings are not modelled.
- Concurrency between requests is not modelled. Each request is modelled on its own writer.
- The newer snapshot's `Response` is modelled by the methods of githttptransfer/response.go; githttpxfer/response.go is not part of this model.
- The older snapshot's getServiceType is modelled by githttpxfer/support.go's; githttptransfer/support.go is not part of this model.
- `Http.WireHeader` is the handler's header map as net/http takes it at WriteHeader. Headers net/http adds itself (a Content-Type sniffed from the body, Date, Content-Length) are not modelled.
- TransferRenderer.ErrorPageDropsContentType: proves only that the handler's text/plain is not in the header map sent at WriteHeader. net/http then sniffs the body and sends `text/plain; charset=utf-8` itself, which the model does not capture.
- TransferRenderer.NotFoundWithoutContentType: proves only that the handler's header map at WriteHeader has no Content-Type key. The client still receives net/http's sniffed `text/plain; charset=utf-8`, which the model does not capture.
- TransferProperties.UploadPackDispatch: requires a path without newlines. With a newline, group 1 starts after the last newline, as `PathPatterns.PrefixGroupMatch` states.
