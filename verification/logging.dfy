/**
 * logRequest and logResponse: each drains a body into a buffer, puts a
 * fresh reader over that buffer back into the message, and writes what it
 * saw to the log, a response body going through the gzip decompressor first
 * when its Content-Encoding says gzip.
 */
module Logging {
  import opened Text
  import opened Headers
  import opened Streams
  import opened Messages

  const INCOMING_BANNER := "=== Incoming Request ==="
  const RESPONSE_BANNER := "=== Response from Remote ==="
  const CONTENT_ENCODING := "Content-Encoding"

  /** resp.Header.Get("Content-Encoding"). The name is already in canonical
      form, so Get looks it up as it is (ContentEncodingIsGet). */
  function ContentEncoding(header: Fields): string {
    FirstValue(header, CONTENT_ENCODING)
  }

  lemma ContentEncodingIsGet(header: Fields)
    ensures ContentEncoding(header) == GetField(header, CONTENT_ENCODING)
  {
    var key := CONTENT_ENCODING;
    forall i | 0 <= i < |key|
      ensures IsTokenChar(key[i])
      ensures key[i] == if i == 0 || key[i - 1] == '-' then UpperAscii(key[i]) else LowerAscii(key[i])
    {
    }
    CanonicalWhenCased(key);
  }

  /** One Printf of the logger; header and form lines are kept as the map
      they print, since the map gives them in no fixed order. */
  datatype Entry =
    | Banner(title: string)
    | MethodLine(methodName: string)
    | PathLine(path: string)
    | HeaderLines(header: Fields)
    | FormLines(form: Fields)
    | StatusLine(code: int)
    | BodyText(text: seq<byte>)
    | RequestBodyError
    | ResponseBodyError
    | GzipReaderError
    | GzipInflateError
    | ForwardError

  /** log.Logger: an append-only sequence of entries. */
  class Logger {
    var entries: seq<Entry>

    constructor ()
      ensures entries == []
    {
      entries := [];
    }

    method Printf(entry: Entry)
      modifies this
      ensures entries == old(entries) + [entry]
    {
      entries := entries + [entry];
    }
  }

  /** Appending to a log in two steps appends the two parts together. */
  lemma AppendAssoc<T>(a: seq<T>, b: seq<T>, c: seq<T>)
    ensures a + (b + c) == a + b + c
  {
  }

  /** What gzip.NewReader and io.ReadAll make of a buffer: a bad gzip
      header, a failure while inflating, or the inflated bytes. */
  datatype Inflation = BadHeader | Corrupt | Inflated(plain: seq<byte>)

  /** The body as logResponse will print it, or why it prints an error instead. */
  datatype Decoding = Plain(bytes: seq<byte>) | ReaderFailed | InflateFailed

  /** The decode selection of logResponse: a body whose encoding spells
      "gzip" somewhere, in any case, goes through the decompressor, whose
      failures become errors; any other body is logged as it is. */
  function BodyForLog(encoding: string, buf: seq<byte>, inflate: seq<byte> -> Inflation): (r: Decoding)
    ensures (forall i :: !GzipAt(encoding, i)) ==> r == Plain(buf)
    ensures (exists i :: GzipAt(encoding, i)) ==>
      && (r.Plain? <==> inflate(buf).Inflated?)
      && (r.Plain? ==> r.bytes == inflate(buf).plain)
      && (r == ReaderFailed <==> inflate(buf) == BadHeader)
  {
    if IsGzipContent(encoding) then
      match inflate(buf)
      case BadHeader => ReaderFailed
      case Corrupt => InflateFailed
      case Inflated(plain) => Plain(plain)
    else Plain(buf)
  }

  /** The entries logRequest writes. */
  function RequestLog(request: RequestData): seq<Entry> {
    RequestHead(request) + (if request.bodyFailing then [RequestBodyError] else [BodyText(request.body)])
  }

  /** The entries logRequest writes before it reads the body. */
  function RequestHead(request: RequestData): seq<Entry> {
    [MethodLine(request.methodName), PathLine(request.url.path), HeaderLines(request.header)]
    + (if |request.form| > 0 then [FormLines(request.form)] else [])
  }

  /** The entries logResponse writes. */
  function ResponseLog(response: ResponseData, inflate: seq<byte> -> Inflation): seq<Entry> {
    if response.bodyFailing then [ResponseBodyError]
    else
      [StatusLine(response.status), HeaderLines(response.header)]
      + match BodyForLog(ContentEncoding(response.header), response.body, inflate)
        case Plain(bytes) => [BodyText(bytes)]
        case ReaderFailed => [GzipReaderError]
        case InflateFailed => [GzipInflateError]
  }

  /** A body after it was captured: a complete read leaves a reader over
      the same bytes; a failed one leaves the drained stream, still failing. */
  function Captured(body: seq<byte>, failing: bool): seq<byte> {
    if failing then [] else body
  }

  /** logRequest */
  method LogRequest(r: Request, log: Logger)
    requires r.Valid()
    modifies r, r.body, log
    ensures r.Valid()
    ensures log.entries == old(log.entries) + RequestLog(old(r.Data()))
    ensures r.Data() == old(r.Data()).(body := Captured(old(r.body.Pending()), old(r.body.failing)))
    ensures old(r.body.failing) ==> r.body == old(r.body)
    ensures !old(r.body.failing) ==> fresh(r.body)
  {
    ghost var start, request := log.entries, r.Data();
    log.Printf(MethodLine(r.methodName));
    log.Printf(PathLine(r.url.path));
    log.Printf(HeaderLines(r.header.fields));
    ghost var lines := [MethodLine(request.methodName), PathLine(request.url.path), HeaderLines(request.header)];
    assert log.entries == start + lines;
    if |r.form| > 0 {
      log.Printf(FormLines(r.form));
      AppendAssoc(start, lines, [FormLines(request.form)]);
      lines := lines + [FormLines(request.form)];
    }
    assert lines == RequestHead(request);
    var buf, ok := Drain(r.body);
    if !ok {
      log.Printf(RequestBodyError);
      AppendAssoc(start, lines, [RequestBodyError]);
      return;
    }
    r.body := new Body(buf, false);
    log.Printf(BodyText(buf));
    AppendAssoc(start, lines, [BodyText(buf)]);
  }

  /** logResponse */
  method LogResponse(resp: Response, log: Logger, inflate: seq<byte> -> Inflation)
    requires resp.Valid()
    modifies resp, resp.body, log
    ensures resp.Valid()
    ensures log.entries == old(log.entries) + ResponseLog(old(resp.Data()), inflate)
    ensures resp.Data() == old(resp.Data()).(body := Captured(old(resp.body.Pending()), old(resp.body.failing)))
    ensures old(resp.body.failing) ==> resp.body == old(resp.body)
    ensures !old(resp.body.failing) ==> fresh(resp.body)
  {
    ghost var start, response := log.entries, resp.Data();
    var buf, ok := Drain(resp.body);
    if !ok {
      log.Printf(ResponseBodyError);
      return;
    }
    resp.body := new Body(buf, false);
    log.Printf(StatusLine(resp.statusCode));
    log.Printf(HeaderLines(resp.header.fields));
    ghost var lines := [StatusLine(response.status), HeaderLines(response.header)];
    assert log.entries == start + lines;
    match BodyForLog(ContentEncoding(resp.header.fields), buf, inflate)
    case ReaderFailed =>
      log.Printf(GzipReaderError);
      AppendAssoc(start, lines, [GzipReaderError]);
    case InflateFailed =>
      log.Printf(GzipInflateError);
      AppendAssoc(start, lines, [GzipInflateError]);
    case Plain(bodyBytes) =>
      log.Printf(BodyText(bodyBytes));
      AppendAssoc(start, lines, [BodyText(bodyBytes)]);
  }

  /** On a request body that cannot be read to its end the log reports the
      error and shows no body at all. */
  lemma RequestReadErrorLogsNoBody(request: RequestData)
    requires request.bodyFailing
    ensures RequestLog(request)[|RequestLog(request)| - 1] == RequestBodyError
    ensures forall e :: e in RequestLog(request) ==> !e.BodyText?
  {
    var head := RequestHead(request);
    forall e | e in RequestLog(request)
      ensures !e.BodyText?
    {
      assert e in head || e == RequestBodyError;
    }
  }

  /** On a response body that cannot be read to its end the error is the
      only thing logged: capture comes first, so neither the status nor the
      headers are. */
  lemma ResponseReadErrorLogsOnlyError(response: ResponseData, inflate: seq<byte> -> Inflation)
    requires response.bodyFailing
    ensures ResponseLog(response, inflate) == [ResponseBodyError]
  {
  }

  /** A response whose Content-Encoding does not mention gzip has its body
      logged exactly as it was read. */
  lemma PlainBodyLoggedVerbatim(response: ResponseData, inflate: seq<byte> -> Inflation)
    requires !response.bodyFailing
    requires !IsGzipContent(GetField(response.header, CONTENT_ENCODING))
    ensures ResponseLog(response, inflate)
            == [StatusLine(response.status), HeaderLines(response.header), BodyText(response.body)]
  {
    ContentEncodingIsGet(response.header);
  }

  /** A gzip-encoded response has its body logged as the decompressor
      inflates it, after the status and headers. */
  lemma GzipBodyLoggedInflated(response: ResponseData, inflate: seq<byte> -> Inflation, plain: seq<byte>)
    requires !response.bodyFailing
    requires IsGzipContent(GetField(response.header, CONTENT_ENCODING))
    requires inflate(response.body) == Inflated(plain)
    ensures ResponseLog(response, inflate)
            == [StatusLine(response.status), HeaderLines(response.header), BodyText(plain)]
  {
    ContentEncodingIsGet(response.header);
  }

  /** A gzip-encoded response the decompressor rejects has the error
      logged in place of a body; the status and headers still are. */
  lemma GzipFailureLogsNoBody(response: ResponseData, inflate: seq<byte> -> Inflation)
    requires !response.bodyFailing
    requires IsGzipContent(GetField(response.header, CONTENT_ENCODING))
    requires !inflate(response.body).Inflated?
    ensures ResponseLog(response, inflate)
            == [StatusLine(response.status), HeaderLines(response.header),
                if inflate(response.body).BadHeader? then GzipReaderError else GzipInflateError]
  {
    ContentEncodingIsGet(response.header);
  }
}
