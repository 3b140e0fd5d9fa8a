/**
 * The older snapshot's error pages, as written: status, body, and only then
 * Content-Type, which is too late to be in the header map net/http sends.
 * What net/http then adds on its own (a Content-Type sniffed from the body)
 * lies outside `Http.WireHeader`.
 */
module TransferRenderer {
  import opened Http
  import XferRenderer

  /** The calls one error page makes on the writer, in the older order. */
  function ErrorPage(code: int, text: string): seq<Step> {
    [StatusWritten(code), BodyWritten(text), HeaderSet("Content-Type", "text/plain")]
  }

  /**
   * Status and body are as intended, and the final header map even holds
   * Content-Type text/plain, but the handler's header map as it stood at
   * WriteHeader is the one from before the page: the handler's own
   * text/plain is not among the headers sent.
   */
  lemma ErrorPageDropsContentType(h: Header, before: seq<Step>, code: int, text: string)
    requires StatusOf(before) == Unwritten
    ensures StatusOf(before + ErrorPage(code, text)) == Sent(code)
    ensures BodyOf(before + ErrorPage(code, text)) == BodyOf(before) + text
    ensures HeaderAfter(h, before + ErrorPage(code, text)) == HeaderAfter(h, before)["Content-Type" := ["text/plain"]]
    ensures WireHeader(h, before + ErrorPage(code, text)) == HeaderAfter(h, before)
  {
    var page := ErrorPage(code, text);
    StatusOfAppend(before, page);
    BodyOfAppend(before, page);
    WireHeaderAppend(h, before, page);
    HeaderAfterAppend(h, before, page);
    assert page[1..][1..] == [HeaderSet("Content-Type", "text/plain")];
    assert page[1..][1..][1..] == [];
    assert BodyOf(page[1..][1..]) == "";
    assert BodyOf(page[1..]) == text;
    assert BodyOf(page) == text;
    var hb := HeaderAfter(h, before);
    assert HeaderAfter(hb, page[1..][1..]) == hb["Content-Type" := ["text/plain"]];
    assert HeaderAfter(hb, page[1..]) == HeaderAfter(hb, page[1..][1..]);
    assert HeaderAfter(hb, page) == HeaderAfter(hb, page[1..]);
  }

  /** The literal texts are the standard status texts, so only the header order differs from the newer pages. */
  lemma SameStatusTexts()
    ensures StatusText(405) == "Method Not Allowed" && StatusText(400) == "Bad Request"
    ensures StatusText(404) == "Not Found" && StatusText(403) == "Forbidden"
    ensures StatusText(500) == "Internal Server Error"
  {
  }

  /**
   * Concretely: for Not Found rendered on a fresh response, the handler's
   * header map at WriteHeader has no Content-Type key, where the newer page
   * has text/plain in it.
   */
  lemma NotFoundWithoutContentType()
    ensures "Content-Type" !in WireHeader(map[], ErrorPage(404, "Not Found"))
    ensures WireHeader(map[], XferRenderer.ErrorPage(404))["Content-Type"] == ["text/plain"]
  {
    var older, newer := ErrorPage(404, "Not Found"), XferRenderer.ErrorPage(404);
    ErrorPageDropsContentType(map[], [], 404, "Not Found");
    XferRenderer.ErrorPageOutcome(map[], [], 404);
    assert [] + older == older;
    assert [] + newer == newer;
    assert HeaderAfter(map[], []) == map[];
  }

  /** The page RenderMethodNotAllowed renders: 405 for HTTP/1.1 requests, 400 for any other protocol string. */
  function MethodNotAllowedPage(proto: string): seq<Step> {
    if proto == "HTTP/1.1" then ErrorPage(405, "Method Not Allowed") else ErrorPage(400, "Bad Request")
  }

  method RenderMethodNotAllowed(w: ResponseWriter, r: Request)
    requires w.Valid()
    modifies w
    ensures w.Valid()
    ensures w.log == old(w.log) + MethodNotAllowedPage(r.proto)
    ensures r.proto == "HTTP/1.1" ==> w.log == old(w.log) + ErrorPage(405, "Method Not Allowed")
    ensures r.proto != "HTTP/1.1" ==> w.log == old(w.log) + ErrorPage(400, "Bad Request")
  {
    if r.proto == "HTTP/1.1" {
      w.WriteHeader(405);
      w.Write("Method Not Allowed");
    } else {
      w.WriteHeader(400);
      w.Write("Bad Request");
    }
    w.Set("Content-Type", "text/plain");
  }

  method RenderNotFound(w: ResponseWriter)
    requires w.Valid()
    modifies w
    ensures w.Valid()
    ensures w.log == old(w.log) + ErrorPage(404, "Not Found")
  {
    w.WriteHeader(404);
    w.Write("Not Found");
    w.Set("Content-Type", "text/plain");
  }

  method RenderNoAccess(w: ResponseWriter)
    requires w.Valid()
    modifies w
    ensures w.Valid()
    ensures w.log == old(w.log) + ErrorPage(403, "Forbidden")
  {
    w.WriteHeader(403);
    w.Write("Forbidden");
    w.Set("Content-Type", "text/plain");
  }

  method RenderInternalServerError(w: ResponseWriter)
    requires w.Valid()
    modifies w
    ensures w.Valid()
    ensures w.log == old(w.log) + ErrorPage(500, "Internal Server Error")
  {
    w.WriteHeader(500);
    w.Write("Internal Server Error");
    w.Set("Content-Type", "text/plain");
  }
}
