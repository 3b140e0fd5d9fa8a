/**
 * The `git` helper both snapshots share: which services are enabled,
 * where a repository lives under the root directory, whether it exists,
 * and the metadata of a file inside it.
 */
module GitRepo {
  import opened Wrappers
  import opened GoPath
  import opened Os
  import opened Http

  const UploadPack := "upload-pack"
  const ReceivePack := "receive-pack"

  /** The root directory, the git executable, and whether each service is enabled. */
  datatype Git = Git(rootPath: string, binPath: string, uploadPack: bool, receivePack: bool)

  /** The arguments of the command that prints the advertisement of `serviceName`. */
  function InfoRefsArgs(serviceName: string): seq<string> {
    [serviceName, "--stateless-rpc", "--advertise-refs", "."]
  }

  /** The arguments of the command that serves one RPC request. */
  function RPCArgs(rpc: string): seq<string> {
    [rpc, "--stateless-rpc", "."]
  }

  /** The first pkt-line of a smart advertisement. */
  function ServiceLine(serviceName: string): string {
    "# service=git-" + serviceName + "\n"
  }

  function AdvertisementContentType(serviceName: string): string {
    "application/x-git-" + serviceName + "-advertisement"
  }

  function ResultContentType(rpc: string): string {
    "application/x-git-" + rpc + "-result"
  }

  /** The Content-Type a smart-protocol client sends with an RPC request. */
  function RequestContentType(rpc: string): string {
    "application/x-git-" + rpc + "-request"
  }

  /**
   * Whether `rpc` may be served: when asked, the request must carry the
   * matching Content-Type; then only the two known services can be allowed,
   * each according to its flag.
   */
  function HasAccess(g: Git, req: Request, rpc: string, checkContentType: bool): (r: bool)
    ensures r ==> rpc == UploadPack || rpc == ReceivePack
    ensures rpc == UploadPack && !g.uploadPack ==> !r
    ensures rpc == ReceivePack && !g.receivePack ==> !r
    ensures checkContentType && HeaderGet(req, "Content-Type") != RequestContentType(rpc) ==> !r
    ensures !checkContentType || HeaderGet(req, "Content-Type") == RequestContentType(rpc) ==>
      (r <==> (rpc == UploadPack && g.uploadPack) || (rpc == ReceivePack && g.receivePack))
  {
    if checkContentType && HeaderGet(req, "Content-Type") != RequestContentType(rpc) then false
    else if rpc == ReceivePack then g.receivePack
    else if rpc == UploadPack then g.uploadPack
    else false
  }

  /** Checking the Content-Type only ever takes access away. */
  lemma ContentTypeCheckOnlyRestricts(g: Git, req: Request, rpc: string)
    ensures HasAccess(g, req, rpc, true) ==> HasAccess(g, req, rpc, false)
  {
  }

  /** path.Join(rootPath, repoPath) */
  function GetAbsolutePath(g: Git, repoPath: string): string {
    Join(g.rootPath, repoPath)
  }

  /** A repository path of plain components lands under the root, component by component. */
  lemma AbsolutePathUnderRoot(g: Git, rootElems: seq<string>, repoElems: seq<string>)
    requires |rootElems| >= 1 && |repoElems| >= 1 && AllPlain(rootElems) && AllPlain(repoElems)
    requires g.rootPath == "/" + JoinSlash(rootElems)
    ensures GetAbsolutePath(g, "/" + JoinSlash(repoElems)) == "/" + JoinSlash(rootElems + repoElems)
    ensures GetAbsolutePath(g, JoinSlash(repoElems)) == "/" + JoinSlash(rootElems + repoElems)
  {
    JoinPlainAbsolute(rootElems, repoElems);
    JoinPlainRelative(rootElems, repoElems);
  }

  /** Nothing sanitises the repository path: `..` components climb out of the root. */
  lemma AbsolutePathCanEscapeRoot(g: Git)
    requires g.rootPath == "/data/git"
    ensures GetAbsolutePath(g, "../../etc") == "/etc"
  {
    JoinEscapesRoot();
  }

  /** A repository exists unless os.Stat says it does not; any other stat error counts as existing. */
  function Exists(g: Git, fs: FileSystem, repoPath: string): (r: bool)
    ensures !r <==> fs(GetAbsolutePath(g, repoPath)) == StatFailed(NotExist)
  {
    match fs(GetAbsolutePath(g, repoPath))
    case StatFailed(NotExist) => false
    case _ => true
  }

  /** What GetRequestFileInfo returns: the stat data and the absolute path of the file. */
  datatype RequestFileInfo = RequestFileInfo(size: nat, modTime: string, absolutePath: string)

  /** The absolute path of a file inside a repository. */
  function FilePath(g: Git, repoPath: string, filePath: string): string {
    Join(GetAbsolutePath(g, repoPath), filePath)
  }

  function GetRequestFileInfo(g: Git, fs: FileSystem, repoPath: string, filePath: string): (r: Result<RequestFileInfo, ErrKind>)
    ensures r.Success? <==> fs(FilePath(g, repoPath, filePath)).Stat?
    ensures r.Success? ==>
      var st := fs(FilePath(g, repoPath, filePath));
      r.value == RequestFileInfo(st.size, st.modTime, FilePath(g, repoPath, filePath))
    ensures r.Failure? ==> fs(FilePath(g, repoPath, filePath)) == StatFailed(r.error)
  {
    var abs := Join(GetAbsolutePath(g, repoPath), filePath);
    match fs(abs)
    case StatFailed(e) => Failure(e)
    case Stat(size, modTime) => Success(RequestFileInfo(size, modTime, abs))
  }

  /** A file path of plain components lands inside the repository directory. */
  lemma FilePathUnderRepository(g: Git, rootElems: seq<string>, repoElems: seq<string>, fileElems: seq<string>)
    requires |rootElems| >= 1 && |repoElems| >= 1 && |fileElems| >= 1
    requires AllPlain(rootElems) && AllPlain(repoElems) && AllPlain(fileElems)
    requires g.rootPath == "/" + JoinSlash(rootElems)
    ensures FilePath(g, "/" + JoinSlash(repoElems), JoinSlash(fileElems))
         == "/" + JoinSlash(rootElems + repoElems + fileElems)
  {
    AbsolutePathUnderRoot(g, rootElems, repoElems);
    AllPlainConcat(rootElems, repoElems);
    JoinPlainRelative(rootElems + repoElems, fileElems);
  }
}
