/** The newer snapshot's per-request context, whose fields handlers and listeners update. */
module XferContext {
  import opened Wrappers
  import opened Http
  import opened Os
  import Response

  /** The updatable part of a context, as a value. */
  datatype ContextFields = ContextFields(request: Request, repoPath: string, filePath: string, env: Environ)

  class Context {
    const response: Response.Response
    var request: Request
    var repoPath: string
    var filePath: string
    var env: Environ

    /** NewContext: the environment starts nil, so commands inherit the server's. */
    constructor (rw: ResponseWriter, r: Request, repo: string, file: string)
      ensures response.writer == rw
      ensures request == r && repoPath == repo && filePath == file && env == None
    {
      response := new Response.Response(rw);
      request := r;
      repoPath := repo;
      filePath := file;
      env := None;
    }

    function Fields(): ContextFields
      reads this
    {
      ContextFields(request, repoPath, filePath, env)
    }

    method SetRequest(r: Request)
      modifies this
      ensures Fields() == old(Fields()).(request := r)
    {
      request := r;
    }

    method SetRepoPath(p: string)
      modifies this
      ensures Fields() == old(Fields()).(repoPath := p)
    {
      repoPath := p;
    }

    method SetFilePath(p: string)
      modifies this
      ensures Fields() == old(Fields()).(filePath := p)
    {
      filePath := p;
    }

    method SetEnv(e: Environ)
      modifies this
      ensures Fields() == old(Fields()).(env := e)
    {
      env := e;
    }

    /** Replaces every field at once, through the setters. */
    method SetFields(f: ContextFields)
      modifies this
      ensures Fields() == f
    {
      SetRequest(f.request);
      SetRepoPath(f.repoPath);
      SetFilePath(f.filePath);
      SetEnv(f.env);
    }
  }
}
