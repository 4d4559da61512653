/**
 * The net/http objects the handler works on: URL, Request, Response and
 * the ResponseWriter, with the fields the proxy reads or writes; cloneRequest;
 * and the client call, whose network side is a function from the request
 * the upstream receives to what it answers.
 */
module Messages {
  import opened Headers
  import opened Streams

  datatype UrlParts = UrlParts(scheme: string, host: string, path: string, rawQuery: string)

  /** url.URL: the handler rewrites Scheme and Host in place. */
  class Url {
    var scheme: string
    var host: string
    var path: string
    var rawQuery: string

    constructor (parts: UrlParts)
      ensures Parts() == parts
    {
      scheme, host, path, rawQuery := parts.scheme, parts.host, parts.path, parts.rawQuery;
    }

    function Parts(): UrlParts
      reads this
    {
      UrlParts(scheme, host, path, rawQuery)
    }
  }

  /** Everything about a request that the upstream or the log sees, with
      the body as the bytes still to be read from it and whether reading
      them ends in an error. */
  datatype RequestData = RequestData(
    methodName: string, url: UrlParts, proto: string, header: Fields, form: Fields,
    body: seq<byte>, bodyFailing: bool, contentLength: int, close: bool)

  /** http.Request: only Body is reassigned by the proxy (by logRequest);
      URL, Header and Body are references that two requests may share. */
  class Request {
    const methodName: string
    const url: Url
    const proto: string
    const header: Header
    var body: Body
    const contentLength: int
    const close: bool
    const form: Fields

    ghost predicate Valid()
      reads this, body
    {
      body.Valid()
    }

    function Data(): RequestData
      reads this, url, header, body
      requires Valid()
    {
      RequestData(methodName, url.Parts(), proto, header.fields, form,
                  body.Pending(), body.failing, contentLength, close)
    }

    constructor (methodName: string, url: Url, proto: string, header: Header, body: Body,
                 contentLength: int, close: bool, form: Fields)
      ensures this.methodName == methodName && this.url == url && this.proto == proto
      ensures this.header == header && this.body == body
      ensures this.contentLength == contentLength && this.close == close && this.form == form
    {
      this.methodName, this.url, this.proto, this.header := methodName, url, proto, header;
      this.body, this.contentLength, this.close, this.form := body, contentLength, close, form;
    }
  }

  datatype ResponseData = ResponseData(status: int, header: Fields, body: seq<byte>, bodyFailing: bool)

  /** http.Response: logResponse reassigns Body. */
  class Response {
    const statusCode: int
    const header: Header
    var body: Body

    ghost predicate Valid()
      reads this, body
    {
      body.Valid()
    }

    function Data(): ResponseData
      reads this, header, body
      requires Valid()
    {
      ResponseData(statusCode, header.fields, body.Pending(), body.failing)
    }

    constructor (statusCode: int, header: Header, body: Body)
      ensures this.statusCode == statusCode && this.header == header && this.body == body
    {
      this.statusCode, this.header, this.body := statusCode, header, body;
    }
  }

  /** http.ResponseWriter as the server's response object keeps it: the
      header map the handler fills, whether and with which status and
      header the response head has gone out, and the body bytes written. */
  class ResponseWriter {
    const header: Header
    var wroteHeader: bool
    var status: int
    var sentHeader: Fields
    var written: seq<byte>

    constructor ()
      ensures fresh(header) && header.fields == map[]
      ensures !wroteHeader && written == []
    {
      header := new Header(map[]);
      wroteHeader, status, sentHeader, written := false, 0, map[], [];
    }

    /** WriteHeader: the first call sends the head with `code` and the
        header as it stands; later calls are ignored. */
    method WriteHeader(code: int)
      modifies this
      ensures old(wroteHeader) ==> unchanged(this)
      ensures !old(wroteHeader) ==> wroteHeader && status == code && sentHeader == header.fields
      ensures written == old(written)
    {
      if !wroteHeader {
        wroteHeader, status, sentHeader := true, code, header.fields;
      }
    }

    /** Write: sends the head with status 200 first if it has not gone out. */
    method Write(bytes: seq<byte>)
      modifies this
      ensures written == old(written) + bytes
      ensures wroteHeader
      ensures old(wroteHeader) ==> status == old(status) && sentHeader == old(sentHeader)
      ensures !old(wroteHeader) ==> status == 200 && sentHeader == header.fields
    {
      WriteHeader(200);
      written := written + bytes;
    }

    /** The status the caller receives once the handler returns: a handler
        that never wrote anything gets 200. */
    function FinalStatus(): int
      reads this
    {
      if wroteHeader then status else 200
    }

    /** The header map the head the caller receives is built from, once the
        handler returns (the server adds its own Date, Content-Type and
        framing headers to that head). */
    function FinalHeader(): Fields
      reads this, header
    {
      if wroteHeader then sentHeader else header.fields
    }
  }

  /** cloneRequest: a new request with Method, URL, Proto, ContentLength and
      Close copied, a deep copy of Header, the same Body and no form data. */
  method CloneRequest(r: Request) returns (c: Request)
    ensures fresh(c) && fresh(c.header)
    ensures c.url == r.url && c.body == r.body
    ensures c.methodName == r.methodName && c.proto == r.proto
    ensures c.header.fields == r.header.fields
    ensures c.contentLength == r.contentLength && c.close == r.close && c.form == map[]
  {
    var header := r.header.Clone();
    c := new Request(r.methodName, r.url, r.proto, header, r.body, r.contentLength, r.close, map[]);
  }

  /** What the upstream does with a request: fail at the transport, or
      answer. */
  datatype Upstream = TransportError | Reply(response: ResponseData)

  /** net/http canonicalises the keys of every response header it parses. */
  ghost predicate CanonicalReplies(upstream: RequestData -> Upstream) {
    forall sent :: upstream(sent).Reply? ==> AllCanonical(upstream(sent).response.header)
  }

  /** http.Client.Do: the request body is read to its end, and `upstream`
      gives the outcome for the request as it was handed to Do. Whatever the
      Transport does on the way (headers it adds, a gzip answer it inflates
      itself, a body it never reads when the dial fails) is part of what
      `upstream` stands for. */
  method Do(req: Request, upstream: RequestData -> Upstream) returns (resp: Response?, ghost sent: RequestData)
    requires req.Valid()
    modifies req.body
    ensures req.Valid() && req.body.Pending() == []
    ensures sent == old(req.Data())
    ensures upstream(sent).TransportError? <==> resp == null
    ensures resp != null ==>
      && fresh(resp) && fresh(resp.header) && fresh(resp.body)
      && resp.Valid() && resp.Data() == upstream(sent).response
  {
    var body, ok := Drain(req.body);
    sent := RequestData(req.methodName, req.url.Parts(), req.proto, req.header.fields, req.form,
                            body, !ok, req.contentLength, req.close);
    var outcome := upstream(RequestData(req.methodName, req.url.Parts(), req.proto, req.header.fields,
                                        req.form, body, !ok, req.contentLength, req.close));
    match outcome
    case TransportError =>
      resp := null;
    case Reply(answer) =>
      var header := new Header(answer.header);
      var stream := new Body(answer.body, answer.bodyFailing);
      resp := new Response(answer.status, header, stream);
  }
}
