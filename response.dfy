/**
 * `Response`, the thin wrapper around an http.ResponseWriter that the
 * handlers write through: named header setters, the two caching policies,
 * and pkt-line output.
 */
module Response {
  import opened Http
  import opened Numerals
  import opened Pkt

  /** One year, in seconds. */
  const OneYear := 31536000

  /** The headers HdrNocache sets, in order. */
  function NoCacheSteps(): seq<Step> {
    [HeaderSet("Expires", "Fri, 01 Jan 1980 00:00:00 GMT"),
     HeaderSet("Pragma", "no-cache"),
     HeaderSet("Cache-Control", "no-cache, max-age=0, must-revalidate")]
  }

  /** The headers HdrCacheForever sets, in order, given the current Unix time. */
  function CacheForeverSteps(now: int): seq<Step> {
    [HeaderSet("Date", Decimal(now)),
     HeaderSet("Expires", Decimal(now + OneYear)),
     HeaderSet("Cache-Control", "public, max-age=31536000")]
  }

  /** The three no-cache headers end up with one value each, and no other header changes. */
  lemma NoCacheHeaders(h: Header)
    ensures var r := HeaderAfter(h, NoCacheSteps());
      && "Expires" in r && "Pragma" in r && "Cache-Control" in r
      && r["Expires"] == ["Fri, 01 Jan 1980 00:00:00 GMT"]
      && r["Pragma"] == ["no-cache"]
      && r["Cache-Control"] == ["no-cache, max-age=0, must-revalidate"]
      && r.Keys == h.Keys + {"Expires", "Pragma", "Cache-Control"}
      && forall k :: k in h && k !in {"Expires", "Pragma", "Cache-Control"} ==> r[k] == h[k]
  {
    var s := NoCacheSteps();
    var h3 := h["Expires" := ["Fri, 01 Jan 1980 00:00:00 GMT"]]["Pragma" := ["no-cache"]]
      ["Cache-Control" := ["no-cache, max-age=0, must-revalidate"]];
    HeaderAfterThreeSets(h, s[0].key, s[0].value, s[1].key, s[1].value, s[2].key, s[2].value);
    assert HeaderAfter(h, s) == h3;
  }

  /** The advertised expiry is exactly one year after the advertised date, and no other header changes. */
  lemma CacheForeverHeaders(h: Header, now: int)
    ensures var r := HeaderAfter(h, CacheForeverSteps(now));
      && "Date" in r && "Expires" in r && "Cache-Control" in r
      && |r["Date"]| == 1 && |r["Expires"]| == 1
      && ParseInt(r["Expires"][0], 10) - ParseInt(r["Date"][0], 10) == OneYear
      && r["Cache-Control"] == ["public, max-age=31536000"]
      && r.Keys == h.Keys + {"Date", "Expires", "Cache-Control"}
      && forall k :: k in h && k !in {"Date", "Expires", "Cache-Control"} ==> r[k] == h[k]
  {
    CacheForeverMap(h, now);
    var r := HeaderAfter(h, CacheForeverSteps(now));
    var date, expires := Decimal(now), Decimal(now + OneYear);
    assert r["Date"] == [date] && r["Expires"] == [expires];
    DecimalsDiffer(now, now + OneYear);
  }

  /** The map HdrCacheForever leaves: the three keys set in order on top of `h`. */
  lemma CacheForeverMap(h: Header, now: int)
    ensures HeaderAfter(h, CacheForeverSteps(now))
      == h["Date" := [Decimal(now)]]["Expires" := [Decimal(now + OneYear)]]["Cache-Control" := ["public, max-age=31536000"]]
  {
    var s := CacheForeverSteps(now);
    HeaderAfterThreeSets(h, s[0].key, s[0].value, s[1].key, s[1].value, s[2].key, s[2].value);
  }

  /** Two decimal strings read back as numbers that differ as the originals do. */
  lemma DecimalsDiffer(a: int, b: int)
    ensures ParseInt(Decimal(b), 10) - ParseInt(Decimal(a), 10) == b - a
  {
    ParseFormatInt(a, 10);
    ParseFormatInt(b, 10);
  }

  class Response {
    const writer: ResponseWriter

    /** NewResponse(w) */
    constructor (w: ResponseWriter)
      ensures writer == w
    {
      writer := w;
    }

    method SetContentType(value: string)
      requires writer.Valid()
      modifies writer
      ensures writer.Valid()
      ensures writer.log == old(writer.log) + [HeaderSet("Content-Type", value)]
      ensures writer.header == old(writer.header)["Content-Type" := [value]]
    {
      writer.Set("Content-Type", value);
    }

    method SetContentLength(value: string)
      requires writer.Valid()
      modifies writer
      ensures writer.Valid()
      ensures writer.log == old(writer.log) + [HeaderSet("Content-Length", value)]
      ensures writer.header == old(writer.header)["Content-Length" := [value]]
    {
      writer.Set("Content-Length", value);
    }

    method SetLastModified(value: string)
      requires writer.Valid()
      modifies writer
      ensures writer.Valid()
      ensures writer.log == old(writer.log) + [HeaderSet("Last-Modified", value)]
      ensures writer.header == old(writer.header)["Last-Modified" := [value]]
    {
      writer.Set("Last-Modified", value);
    }

    method HdrNocache()
      requires writer.Valid()
      modifies writer
      ensures writer.Valid()
      ensures writer.log == old(writer.log) + NoCacheSteps()
    {
      writer.Set("Expires", "Fri, 01 Jan 1980 00:00:00 GMT");
      writer.Set("Pragma", "no-cache");
      writer.Set("Cache-Control", "no-cache, max-age=0, must-revalidate");
    }

    /** `now` is the Unix time time.Now() returns. */
    method HdrCacheForever(now: int)
      requires writer.Valid()
      modifies writer
      ensures writer.Valid()
      ensures writer.log == old(writer.log) + CacheForeverSteps(now)
    {
      var expires := now + OneYear;
      writer.Set("Date", Decimal(now));
      writer.Set("Expires", Decimal(expires));
      writer.Set("Cache-Control", "public, max-age=31536000");
    }

    method WriteHeader(code: int)
      requires writer.Valid()
      modifies writer
      ensures writer.Valid()
      ensures writer.log == old(writer.log) + [StatusWritten(code)] && writer.header == old(writer.header)
    {
      writer.WriteHeader(code);
    }

    method Write(data: string)
      requires writer.Valid()
      modifies writer
      ensures writer.Valid()
      ensures writer.log == old(writer.log) + [BodyWritten(data)] && writer.header == old(writer.header)
    {
      writer.Write(data);
    }

    /** io.Copy of a reader holding `data`: no Write at all when there is nothing to copy. */
    method Copy(data: string)
      requires writer.Valid()
      modifies writer
      ensures writer.Valid()
      ensures writer.log == old(writer.log) + CopySteps(data) && writer.header == old(writer.header)
    {
      if data != "" {
        writer.Write(data);
      }
    }

    method PktFlush()
      requires writer.Valid()
      modifies writer
      ensures writer.Valid()
      ensures writer.log == old(writer.log) + [BodyWritten(FlushPkt)] && writer.header == old(writer.header)
    {
      Write("0000");
    }

    method PktWrite(str: string)
      requires writer.Valid()
      modifies writer
      ensures writer.Valid()
      ensures writer.log == old(writer.log) + [BodyWritten(PktLine(str))] && writer.header == old(writer.header)
    {
      var s := PadZeros(FormatInt(|str| + 4, 16), 4);
      Write(s + str);
    }
  }

  /** The writes io.Copy makes for a reader holding `data`. */
  function CopySteps(data: string): (r: seq<Step>)
    ensures BodyOf(r) == data
    ensures data == "" ==> StatusOf(r) == Unwritten
    ensures data != "" ==> StatusOf(r) == Sent(200)
  {
    if data == "" then [] else [BodyWritten(data)]
  }
}
