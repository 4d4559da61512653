/**
 * The request handler of the proxy: log the inbound request, clone it,
 * point the clone at the upstream, send it, and on an answer copy the
 * response headers to the caller, log the response and relay its body.
 * `Handled` states what one call does as a function of the request, the
 * upstream's behaviour and the decompressor; the lemmas below are about it.
 */
module Relay {
  import opened Headers
  import opened Streams
  import opened Messages
  import opened Logging

  /** The scheme and host of the configured upstream URL. */
  datatype Target = Target(scheme: string, host: string)

  /** The request the upstream receives: the inbound one once logRequest has
      captured its body, with the upstream's scheme and host and no form data. */
  function Forwarded(inbound: RequestData, target: Target): RequestData {
    inbound.(url := inbound.url.(scheme := target.scheme, host := target.host),
             form := map[],
             body := Captured(inbound.body, inbound.bodyFailing))
  }

  /** One handled request: what was forwarded, what was logged, and the
      status, header and body the caller receives. */
  datatype Exchange = Exchange(
    forwarded: RequestData, log: seq<Entry>, status: int, header: Fields, body: seq<byte>)

  /** The handler's effect, given the inbound request, the upstream, the
      decompressor and the caller's response header before the call. */
  function Handled(inbound: RequestData, target: Target, upstream: RequestData -> Upstream,
                   inflate: seq<byte> -> Inflation, header: Fields): Exchange
  {
    var forwarded := Forwarded(inbound, target);
    var requestLog := [Banner(INCOMING_BANNER)] + RequestLog(inbound);
    match upstream(forwarded)
    case TransportError =>
      Exchange(forwarded, requestLog + [ForwardError], 500, header, [])
    case Reply(response) =>
      Exchange(forwarded, requestLog + [Banner(RESPONSE_BANNER)] + ResponseLog(response, inflate),
               200, Merged(header, response.header), Captured(response.body, response.bodyFailing))
  }

  /** io.Copy(w, resp.Body): every pending byte of the body goes to the
      caller. Writing sends the head with status 200 if nothing had, which
      is what the caller would get anyway, so the final status and header
      stay as they were. */
  method CopyToCaller(w: ResponseWriter, body: Body)
    requires body.Valid()
    modifies w, body
    ensures body.Valid() && body.Pending() == []
    ensures w.written == old(w.written) + old(body.Pending())
    ensures w.FinalStatus() == old(w.FinalStatus()) && w.FinalHeader() == old(w.FinalHeader())
  {
    while true
      invariant body.Valid()
      invariant w.written + body.Pending() == old(w.written) + old(body.Pending())
      invariant w.FinalStatus() == old(w.FinalStatus()) && w.FinalHeader() == old(w.FinalHeader())
      decreases |body.data| - body.pos
    {
      var chunk, status := body.Read(CHUNK_SIZE);
      if status != Data {
        return;
      }
      w.Write(chunk);
    }
  }

  /** The handler up to the upstream call: log the inbound request, clone
      it, rewrite the clone's scheme and host (through the URL it shares
      with the inbound request) and send it; on a transport error log it
      and answer 500. `sent` is the request the upstream received. */
  method Forward(w: ResponseWriter, r: Request, target: Target, upstream: RequestData -> Upstream,
                 log: Logger) returns (resp: Response?, ghost sent: RequestData)
    requires r.Valid() && !w.wroteHeader
    modifies w, r, r.url, r.body, log
    ensures sent == Forwarded(old(r.Data()), target)
    ensures r.url.Parts() == old(r.url.Parts()).(scheme := target.scheme, host := target.host)
    ensures upstream(sent).TransportError? <==> resp == null
    ensures resp == null ==>
      && log.entries == old(log.entries) + ([Banner(INCOMING_BANNER)] + RequestLog(old(r.Data())) + [ForwardError])
      && w.FinalStatus() == 500 && w.FinalHeader() == w.header.fields && w.written == old(w.written)
    ensures resp != null ==>
      && log.entries == old(log.entries) + ([Banner(INCOMING_BANNER)] + RequestLog(old(r.Data())))
      && unchanged(w)
      && fresh(resp) && fresh(resp.header) && fresh(resp.body)
      && resp.Valid() && resp.Data() == upstream(sent).response
  {
    ghost var start, inbound := log.entries, r.Data();
    log.Printf(Banner(INCOMING_BANNER));
    LogRequest(r, log);
    AppendAssoc(start, [Banner(INCOMING_BANNER)], RequestLog(inbound));
    var req := CloneRequest(r);
    req.url.scheme := target.scheme;
    req.url.host := target.host;
    assert req.Data() == Forwarded(old(r.Data()), target);
    resp, sent := Do(req, upstream);
    if resp == null {
      log.Printf(ForwardError);
      AppendAssoc(start, [Banner(INCOMING_BANNER)] + RequestLog(inbound), [ForwardError]);
      w.WriteHeader(500);
      return;
    }
  }

  /** The end of the handler: copy the response header into the caller's,
      log the response (which captures and restores its body) and relay the
      body to the caller. Nothing has been written to the caller yet, so
      the head that goes out carries the merged header. */
  method Respond(w: ResponseWriter, resp: Response, log: Logger, inflate: seq<byte> -> Inflation)
    requires resp.Valid() && AllCanonical(resp.header.fields)
    requires w.header != resp.header && !w.wroteHeader
    modifies w, w.header, resp, resp.body, log
    ensures log.entries == old(log.entries) + ([Banner(RESPONSE_BANNER)] + ResponseLog(old(resp.Data()), inflate))
    ensures w.written == old(w.written) + Captured(old(resp.Data()).body, old(resp.Data()).bodyFailing)
    ensures w.FinalStatus() == 200
    ensures w.FinalHeader() == Merged(old(w.header.fields), old(resp.Data()).header)
  {
    CopyHeaders(w.header, resp.header);
    ghost var start, response := log.entries, resp.Data();
    log.Printf(Banner(RESPONSE_BANNER));
    LogResponse(resp, log, inflate);
    AppendAssoc(start, [Banner(RESPONSE_BANNER)], ResponseLog(response, inflate));
    CopyToCaller(w, resp.body);
  }

  /** The end of the handler with the upstream's status passed on: the
      head goes out with that status right after the header is copied. */
  method RespondRelayingStatus(w: ResponseWriter, resp: Response, log: Logger, inflate: seq<byte> -> Inflation)
    requires resp.Valid() && AllCanonical(resp.header.fields)
    requires w.header != resp.header && !w.wroteHeader
    modifies w, w.header, resp, resp.body, log
    ensures log.entries == old(log.entries) + ([Banner(RESPONSE_BANNER)] + ResponseLog(old(resp.Data()), inflate))
    ensures w.written == old(w.written) + Captured(old(resp.Data()).body, old(resp.Data()).bodyFailing)
    ensures w.FinalStatus() == resp.statusCode
    ensures w.FinalHeader() == Merged(old(w.header.fields), old(resp.Data()).header)
  {
    CopyHeaders(w.header, resp.header);
    w.WriteHeader(resp.statusCode);
    ghost var start, response := log.entries, resp.Data();
    log.Printf(Banner(RESPONSE_BANNER));
    LogResponse(resp, log, inflate);
    AppendAssoc(start, [Banner(RESPONSE_BANNER)], ResponseLog(response, inflate));
    CopyToCaller(w, resp.body);
  }

  /** Handled when the upstream cannot be reached. */
  lemma HandledOnError(inbound: RequestData, target: Target, upstream: RequestData -> Upstream,
                       inflate: seq<byte> -> Inflation, header: Fields)
    requires upstream(Forwarded(inbound, target)).TransportError?
    ensures Handled(inbound, target, upstream, inflate, header).log
            == [Banner(INCOMING_BANNER)] + RequestLog(inbound) + [ForwardError]
    ensures Handled(inbound, target, upstream, inflate, header).status == 500
    ensures Handled(inbound, target, upstream, inflate, header).header == header
    ensures Handled(inbound, target, upstream, inflate, header).body == []
  {
  }

  /** Handled when the upstream answers. */
  lemma HandledOnReply(inbound: RequestData, target: Target, upstream: RequestData -> Upstream,
                       inflate: seq<byte> -> Inflation, header: Fields, response: ResponseData)
    requires upstream(Forwarded(inbound, target)) == Reply(response)
    ensures Handled(inbound, target, upstream, inflate, header).log
            == ([Banner(INCOMING_BANNER)] + RequestLog(inbound))
               + ([Banner(RESPONSE_BANNER)] + ResponseLog(response, inflate))
    ensures Handled(inbound, target, upstream, inflate, header).status == 200
    ensures Handled(inbound, target, upstream, inflate, header).header == Merged(header, response.header)
    ensures Handled(inbound, target, upstream, inflate, header).body
            == Captured(response.body, response.bodyFailing)
  {
    AppendAssoc([Banner(INCOMING_BANNER)] + RequestLog(inbound), [Banner(RESPONSE_BANNER)],
                ResponseLog(response, inflate));
  }

  /** The handler closure, as written: the upstream's status is never
      passed on, so a caller whose request reached the upstream gets 200. */
  method Handle(w: ResponseWriter, r: Request, target: Target, upstream: RequestData -> Upstream,
                inflate: seq<byte> -> Inflation, log: Logger) returns (ghost sent: RequestData)
    requires r.Valid() && !w.wroteHeader && w.written == []
    requires CanonicalReplies(upstream)
    modifies w, w.header, r, r.url, r.body, log
    ensures var x := Handled(old(r.Data()), target, upstream, inflate, old(w.header.fields));
      && sent == x.forwarded
      && log.entries == old(log.entries) + x.log
      && w.FinalStatus() == x.status && w.FinalHeader() == x.header && w.written == x.body
    ensures r.url.Parts() == old(r.url.Parts()).(scheme := target.scheme, host := target.host)
  {
    ghost var inbound, header, before := r.Data(), w.header.fields, log.entries;
    ghost var requestLog := [Banner(INCOMING_BANNER)] + RequestLog(inbound);
    var resp;
    resp, sent := Forward(w, r, target, upstream, log);
    if resp == null {
      HandledOnError(inbound, target, upstream, inflate, header);
      return;
    }
    ghost var response := upstream(sent).response;
    HandledOnReply(inbound, target, upstream, inflate, header, response);
    Respond(w, resp, log, inflate);
    AppendAssoc(before, requestLog, [Banner(RESPONSE_BANNER)] + ResponseLog(response, inflate));
  }

  /** The handler with the upstream's status passed on. Everything but the
      final status is as in Handle. */
  method HandleRelayingStatus(w: ResponseWriter, r: Request, target: Target,
                              upstream: RequestData -> Upstream, inflate: seq<byte> -> Inflation,
                              log: Logger) returns (ghost sent: RequestData)
    requires r.Valid() && !w.wroteHeader && w.written == []
    requires CanonicalReplies(upstream)
    modifies w, w.header, r, r.url, r.body, log
    ensures var x := Handled(old(r.Data()), target, upstream, inflate, old(w.header.fields));
      && sent == x.forwarded
      && log.entries == old(log.entries) + x.log
      && w.FinalHeader() == x.header && w.written == x.body
    ensures w.FinalStatus() == match upstream(sent)
                               case TransportError => 500
                               case Reply(response) => response.status
    ensures r.url.Parts() == old(r.url.Parts()).(scheme := target.scheme, host := target.host)
  {
    ghost var inbound, header, before := r.Data(), w.header.fields, log.entries;
    ghost var requestLog := [Banner(INCOMING_BANNER)] + RequestLog(inbound);
    var resp;
    resp, sent := Forward(w, r, target, upstream, log);
    if resp == null {
      HandledOnError(inbound, target, upstream, inflate, header);
      return;
    }
    ghost var response := upstream(sent).response;
    HandledOnReply(inbound, target, upstream, inflate, header, response);
    RespondRelayingStatus(w, resp, log, inflate);
    AppendAssoc(before, requestLog, [Banner(RESPONSE_BANNER)] + ResponseLog(response, inflate));
  }

  /** The clone that goes out keeps everything of the inbound request but
      the scheme and host, which are the upstream's, and the form data,
      which cloneRequest does not copy. */
  lemma RewriteKeepsRequest(inbound: RequestData, target: Target)
    ensures var out := Forwarded(inbound, target);
      && out.url == UrlParts(target.scheme, target.host, inbound.url.path, inbound.url.rawQuery)
      && out.methodName == inbound.methodName && out.proto == inbound.proto
      && out.header == inbound.header
      && out.contentLength == inbound.contentLength && out.close == inbound.close
      && out.form == map[]
  {
  }

  /** logRequest runs before the clone shares the body, so the bytes the
      upstream gets are the ones logged; when the body cannot be read the
      upstream gets the drained stream, which has nothing left but the error. */
  lemma LoggedRequestBodyIsForwarded(inbound: RequestData, target: Target)
    ensures !inbound.bodyFailing ==>
      && Forwarded(inbound, target).body == inbound.body
      && RequestLog(inbound)[|RequestLog(inbound)| - 1] == BodyText(Forwarded(inbound, target).body)
    ensures inbound.bodyFailing ==>
      Forwarded(inbound, target).body == [] && Forwarded(inbound, target).bodyFailing
  {
  }

  /** The caller gets the upstream's body as it was read, whatever the
      Content-Encoding says and whatever the decompressor makes of it:
      logging decodes a copy and restores the raw bytes. */
  lemma RelayedBodyIsUpstreamBody(inbound: RequestData, target: Target, upstream: RequestData -> Upstream,
                                  inflate: seq<byte> -> Inflation, other: seq<byte> -> Inflation,
                                  header: Fields, response: ResponseData)
    requires upstream(Forwarded(inbound, target)) == Reply(response)
    ensures Handled(inbound, target, upstream, inflate, header).body
            == Handled(inbound, target, upstream, other, header).body
    ensures !response.bodyFailing ==> Handled(inbound, target, upstream, inflate, header).body == response.body
  {
    HandledOnReply(inbound, target, upstream, inflate, header, response);
    HandledOnReply(inbound, target, upstream, other, header, response);
  }

  /** The caller's header gets every value of every response header key
      after the values it already had; keys the response lacks keep theirs. */
  lemma CallerHeaderMerged(inbound: RequestData, target: Target, upstream: RequestData -> Upstream,
                           inflate: seq<byte> -> Inflation, header: Fields, response: ResponseData)
    requires upstream(Forwarded(inbound, target)) == Reply(response)
    ensures forall key ::
      Values(Handled(inbound, target, upstream, inflate, header).header, key)
      == Values(header, key) + Values(response.header, key)
    ensures forall key :: key !in response.header ==>
      Values(Handled(inbound, target, upstream, inflate, header).header, key) == Values(header, key)
  {
    HandledOnReply(inbound, target, upstream, inflate, header, response);
    forall key
      ensures Values(Merged(header, response.header), key) == Values(header, key) + Values(response.header, key)
    {
      MergedAt(header, response.header, key);
    }
  }

  /** When the upstream cannot be reached the caller gets 500 with the
      header as it was and no body; no response is logged, and the error
      is the last entry. */
  lemma TransportErrorStops(inbound: RequestData, target: Target, upstream: RequestData -> Upstream,
                            inflate: seq<byte> -> Inflation, header: Fields)
    requires upstream(Forwarded(inbound, target)).TransportError?
    ensures var x := Handled(inbound, target, upstream, inflate, header);
      && x.status == 500 && x.header == header && x.body == []
      && Banner(RESPONSE_BANNER) !in x.log
      && x.log[|x.log| - 1] == ForwardError
  {
    HandledOnError(inbound, target, upstream, inflate, header);
    var x := Handled(inbound, target, upstream, inflate, header);
    forall e | e in x.log
      ensures e != Banner(RESPONSE_BANNER)
    {
      assert e == Banner(INCOMING_BANNER) || e in RequestLog(inbound) || e == ForwardError;
    }
  }

  /** Whatever status the upstream answers with, the caller of the handler
      as written gets 200, since only io.Copy sends the head. */
  lemma StatusNotRelayed(inbound: RequestData, target: Target, upstream: RequestData -> Upstream,
                         inflate: seq<byte> -> Inflation, header: Fields, response: ResponseData)
    requires upstream(Forwarded(inbound, target)) == Reply(response)
    ensures Handled(inbound, target, upstream, inflate, header).status == 200
    ensures response.status != 200 ==>
      Handled(inbound, target, upstream, inflate, header).status != response.status
  {
    HandledOnReply(inbound, target, upstream, inflate, header, response);
  }

  /** An upstream that answers 404 Not Found: the caller sees 200. */
  lemma NotFoundBecomesOk(inbound: RequestData, target: Target, inflate: seq<byte> -> Inflation)
    ensures var notFound := ResponseData(404, map[], [], false);
      Handled(inbound, target, _ => Reply(notFound), inflate, map[]).status == 200
  {
    var notFound := ResponseData(404, map[], [], false);
    StatusNotRelayed(inbound, target, _ => Reply(notFound), inflate, map[], notFound);
  }
}
