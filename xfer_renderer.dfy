/**
 * The newer snapshot's error pages: Content-Type first, then the status,
 * then the standard status text as the body.
 */
module XferRenderer {
  import opened Http

  /** The calls one error page makes on the writer. */
  function ErrorPage(code: int): seq<Step> {
    [HeaderSet("Content-Type", "text/plain"), StatusWritten(code), BodyWritten(StatusText(code))]
  }

  /** 405 for an HTTP/1.1 request; any other protocol string gets 400. */
  function MethodNotAllowedCode(proto: string): (code: int)
    ensures code == 405 <==> proto == "HTTP/1.1"
    ensures code == 400 <==> proto != "HTTP/1.1"
  {
    if proto == "HTTP/1.1" then 405 else 400
  }

  /**
   * On a response nothing has been sent on yet, an error page fixes the
   * status to `code`, appends the status text to the body, and the client
   * receives the header with Content-Type text/plain.
   */
  lemma ErrorPageOutcome(h: Header, before: seq<Step>, code: int)
    requires StatusOf(before) == Unwritten
    ensures StatusOf(before + ErrorPage(code)) == Sent(code)
    ensures BodyOf(before + ErrorPage(code)) == BodyOf(before) + StatusText(code)
    ensures WireHeader(h, before + ErrorPage(code)) == HeaderAfter(h, before)["Content-Type" := ["text/plain"]]
  {
    var page := ErrorPage(code);
    StatusOfAppend(before, page);
    BodyOfAppend(before, page);
    WireHeaderAppend(h, before, page);
    assert page[1..][1..] == [BodyWritten(StatusText(code))];
    assert page[1..][1..][1..] == [];
    assert BodyOf(page[1..][1..]) == StatusText(code);
    assert BodyOf(page[1..]) == BodyOf(page[1..][1..]);
    assert BodyOf(page) == BodyOf(page[1..]);
    assert WireHeader(HeaderAfter(h, before), page)
        == WireHeader(HeaderAfter(h, before)["Content-Type" := ["text/plain"]], page[1..]);
  }

  method RenderMethodNotAllowed(w: ResponseWriter, r: Request)
    requires w.Valid()
    modifies w
    ensures w.Valid()
    ensures w.log == old(w.log) + ErrorPage(MethodNotAllowedCode(r.proto))
  {
    w.Set("Content-Type", "text/plain");
    if r.proto == "HTTP/1.1" {
      w.WriteHeader(405);
      w.Write(StatusText(405));
    } else {
      w.WriteHeader(400);
      w.Write(StatusText(400));
    }
  }

  method RenderNotFound(w: ResponseWriter)
    requires w.Valid()
    modifies w
    ensures w.Valid()
    ensures w.log == old(w.log) + ErrorPage(404)
  {
    w.Set("Content-Type", "text/plain");
    w.WriteHeader(404);
    w.Write(StatusText(404));
  }

  method RenderNoAccess(w: ResponseWriter)
    requires w.Valid()
    modifies w
    ensures w.Valid()
    ensures w.log == old(w.log) + ErrorPage(403)
  {
    w.Set("Content-Type", "text/plain");
    w.WriteHeader(403);
    w.Write(StatusText(403));
  }

  method RenderInternalServerError(w: ResponseWriter)
    requires w.Valid()
    modifies w
    ensures w.Valid()
    ensures w.log == old(w.log) + ErrorPage(500)
  {
    w.Set("Content-Type", "text/plain");
    w.WriteHeader(500);
    w.Write(StatusText(500));
  }
}
