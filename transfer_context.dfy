/** The older snapshot's per-request context: fixed at creation, read-only afterwards. */
module TransferContext {
  import opened Http
  import Response

  datatype Context = Context(response: Response.Response, request: Request, repoPath: string, filePath: string)

  method NewContext(rw: ResponseWriter, r: Request, repoPath: string, filePath: string) returns (ctx: Context)
    ensures fresh(ctx.response) && ctx.response.writer == rw
    ensures ctx.request == r && ctx.repoPath == repoPath && ctx.filePath == filePath
  {
    var res := new Response.Response(rw);
    ctx := Context(res, r, repoPath, filePath);
  }
}
