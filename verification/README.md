# tinyproxy in Dafny

A model of the relay-and-log core of `tinyproxy.go`. This is a transparent HTTP
forwarding proxy. For each inbound request it:

1. logs the request, which reads the body fully and puts a fresh reader over
   the same bytes back into the request;
2. clones the request and points the clone at the configured upstream by
   rewriting the scheme and host of the URL. The clone shares that URL with
   the inbound request;
3. sends the clone upstream. When `Client.Do` fails it logs the error and
   answers 500;
4. otherwise it copies the response header into the caller's header, logs
   the response and relays the response body to the caller. Logging the
   response again captures and restores the body, and a gzip-encoded body
   is logged inflated.

The model has six modules:

- `Text` (text.dfy): Go's `strings.ToLower` and `strings.Contains`, the gzip
  test `isGzipContent`, and the canonical form of a MIME header key that
  `Header.Add` and `Header.Get` use.
- `Headers` (header.dfy): `http.Header` as a class holding a map from key to
  a sequence of values, with `Add` and `Clone`, and `copyHeaders` as a method
  with the source's nested loops. It is proved against the function `Merged`.
- `Streams` (stream.dfy): a single-read body stream, modelled as its bytes,
  a read cursor and whether the stream ends in a read error. Also `io.Copy`
  into a buffer.
- `Messages` (messages.dfy):
  - the URL, request, response and `ResponseWriter` objects, with the fields
    the proxy touches;
  - `cloneRequest`;
  - the client call. Its network side is a function from the request as
    handed to `Client.Do` to what `Client.Do` returns.
- `Logging` (logging.dfy): the logger, and `logRequest`/`logResponse`. They
  are proved against `RequestLog` and `ResponseLog`, which give the entries
  each writes.
- `Relay` (relay.dfy): the handler closure, proved against the function
  `Handled`. It gives the forwarded request, the log, and the status, the
  header map the head is built from, and the body the caller receives. The handler's properties are lemmas about
  `Handled`.

The decompressor (`gzip.NewReader` plus `io.ReadAll`) and the upstream are
parameters of the handler. A gzip decode either fails at the header, fails
while inflating, or yields bytes.

Three behaviours of the code are worth knowing, and the model keeps them as
written:

- A forwarding proxy is expected to pass on the upstream's status, as it
  passes on the header and the body. The handler never does; see
  "Findings".
- One might expect the bytes read before a body read error to still reach
  the upstream or the caller. The code consumes them in `logRequest` and
  `logResponse` and does not restore the body. What is passed on is the
  drained stream, which yields nothing before its error
  (`Logging.Captured`, `Relay.LoggedRequestBodyIsForwarded`).
- In `logResponse` that read error also leaves the status and headers
  unlogged, because capture comes first.

## Model

| member | source | states |
|---|---|---|
| `Text.Lower` | tinyproxy.go:149 | strings.ToLower keeps the length, turns each capital A-Z into its lower case (and U+0130 into 'i', the Kelvin sign into 'k'), leaves no ASCII capital, and keeps every other character |
| `Text.Contains` | tinyproxy.go:149 | strings.Contains is true exactly when the pattern occurs at some offset of the string |
| `Text.IsGzipContent` | tinyproxy.go:148-150 | true exactly when some four consecutive characters of the encoding spell "gzip" once lowercased, in any case mix and at any position |
| `Text.IsGzipContentExamples` | tinyproxy.go:148-150 | "gzip", "GZIP", "x-gzip" and "deflate, gzip" count as gzip; "", "deflate" and "identity" do not |
| `Text.CanonicalKey` | tinyproxy.go:19 | the canonical key Add stores under has the key's length, and a key is changed only when all its characters are token characters |
| `Text.CanonicalKeyAt` | tinyproxy.go:19 | the key Add stores under has the same length as the given key; when every character is a token character, each letter is upper-cased at the start and after '-' and lower-cased elsewhere; a key with any other character is kept as given |
| `Text.RecaseAt` | tinyproxy.go:19 | the recasing pass keeps the length and decides each character's case from the character before it |
| `Text.CanonicalKeyIdempotent` | tinyproxy.go:19 | canonicalising a canonical key changes nothing, so every key Add stores is canonical |
| `Text.CanonicalWhenCased` | tinyproxy.go:178 | a key of token characters already cased the canonical way is its own canonical form |
| `Headers.GetField` | tinyproxy.go:178 | Header.Get gives the first value stored under the canonical form of the name, or "" when that form holds none |
| `Headers.GetFieldIgnoresCase` | tinyproxy.go:178 | Get finds the same value under a name as under its canonical form |
| `Headers.MergedAt` | tinyproxy.go:16-22 | after the merge, each key holds its old values followed by the source's values, and it is present exactly when it was before or the source gives it values |
| `Headers.MergedInsert` | tinyproxy.go:17-20 | merging one more source key is the same as appending its values, in order, to the merge so far |
| `Headers.Header.Add` | tinyproxy.go:19 | Add appends the value after the existing values of the canonical form of the key and changes no other key |
| `Headers.Header.Clone` | tinyproxy.go:111 | Clone gives a new header object with the same keys and values |
| `Headers.AddValues` | tinyproxy.go:18-20 | the inner loop appends the values of one key to dst in their original order |
| `Headers.CopyHeaders` | tinyproxy.go:16-22 | dst becomes the merge of its old contents and src. Every key keeps its old values followed by all of src's values in order, keys not in src are unchanged, and src is not modified |
| `Streams.Body.Read` | tinyproxy.go:134 | a read returns a non-empty prefix of the pending bytes no longer than asked for; with nothing left it returns the end of the stream, or the error of a failing stream |
| `Streams.Drain` | tinyproxy.go:133-134 | io.Copy into a buffer yields exactly the bytes the body still had, leaves the body drained, and succeeds exactly when the stream does not end in an error |
| `Messages.ResponseWriter.WriteHeader` | tinyproxy.go:78 | the first call sends the head with the given status and the header as it stands; later calls change nothing |
| `Messages.ResponseWriter.Write` | tinyproxy.go:92 | writing appends the bytes and, if no head was sent yet, sends one with status 200 |
| `Messages.CloneRequest` | tinyproxy.go:106-116 | the clone is a new request with its own copy of the header, the same URL and body objects as the original, the same method, proto, content length and close flag, and no form data |
| `Messages.Do` | tinyproxy.go:75 | the request as handed to Client.Do, with its body read to the end, decides the outcome. A transport error gives no response; otherwise a new response carries the answer Client.Do returns |
| `Logging.ContentEncodingIsGet` | tinyproxy.go:178 | looking up "Content-Encoding" as stored equals Header.Get of that name |
| `Logging.Logger.Printf` | tinyproxy.go:60 | each Printf appends one entry to the log |
| `Logging.BodyForLog` | tinyproxy.go:175-195 | when the encoding spells "gzip" nowhere, the buffer is logged as it is. Otherwise the inflated bytes are logged when the decompressor succeeds; a bad gzip header and a failure while inflating give their own errors |
| `Logging.LogRequest` | tinyproxy.go:118-144 | logs method, path, headers, form data when there is any, then the body read in full or the read error. After a full read the request holds a fresh reader over exactly those bytes; after an error its drained body stays in place |
| `Logging.LogResponse` | tinyproxy.go:157-199 | on a read error, logs only that error and does not restore the body. Otherwise it restores a fresh reader over the raw bytes, then logs the status, the headers, and the body as the gzip decision and the decompressor make it, or the decompressor's error |
| `Logging.RequestReadErrorLogsNoBody` | tinyproxy.go:134-138 | when the request body cannot be read to its end, the read error is the last entry and no body is logged |
| `Logging.ResponseReadErrorLogsOnlyError` | tinyproxy.go:160-164 | when the response body cannot be read to its end, the read error is all that is logged: no status and no headers |
| `Logging.PlainBodyLoggedVerbatim` | tinyproxy.go:175-198 | when Content-Encoding does not mention gzip, the status, the headers and the body exactly as read are logged |
| `Logging.GzipBodyLoggedInflated` | tinyproxy.go:178-198 | when Content-Encoding mentions gzip and the decompressor succeeds, the inflated bytes are logged as the body |
| `Logging.GzipFailureLogsNoBody` | tinyproxy.go:181-192 | when the decompressor rejects the gzip header or fails while inflating, its error is logged in place of the body, after the status and headers |
| `Relay.CopyToCaller` | tinyproxy.go:92 | io.Copy to the caller writes every pending byte of the response body, and the status and header the caller ends up with stay as they were |
| `Relay.Forward` | tinyproxy.go:59-80 | logs the banner and the request, then sends upstream the clone with the upstream's scheme and host. The inbound URL is rewritten too, because the clone shares the URL object. On a transport error it logs that error and answers 500 |
| `Relay.Respond` | tinyproxy.go:83-92 | the caller's header becomes the merge of its old header and the response's. The response is logged after its banner, the raw body is relayed, and the caller's status stays 200 |
| `Relay.RespondRelayingStatus` | tinyproxy.go:83-92 | the corrected tail of the handler: as `Respond`, but the head goes out with the upstream's status right after the header is copied, so the caller's final status is that status |
| `Relay.Handle` | tinyproxy.go:58-93 | the forwarded request, the log, and the caller's final status, header map and body are those `Handled` gives, and the inbound URL carries the upstream's scheme and host |
| `Relay.RewriteKeepsRequest` | tinyproxy.go:65-73 | the outbound request has the upstream's scheme and host. Its method, path, query, proto, header, content length and close flag equal the inbound request's, and it has no form data |
| `Relay.LoggedRequestBodyIsForwarded` | tinyproxy.go:132-143 | after a full read, the upstream receives exactly the body bytes that were logged. After a read error it receives a drained stream that yields only the error |
| `Relay.RelayedBodyIsUpstreamBody` | tinyproxy.go:166-167 | the body relayed to the caller does not depend on the decompressor. When the body Client.Do returned reads to its end, the relayed body equals it byte for byte |
| `Relay.CallerHeaderMerged` | tinyproxy.go:84 | every key of the caller's header gets the response's values after its own, and keys the response lacks keep theirs |
| `Relay.TransportErrorStops` | tinyproxy.go:75-80 | on a transport error the caller gets 500, its header unchanged and no body. No response is logged, and the error is the last log entry |
| `Relay.StatusNotRelayed` | tinyproxy.go:84-92 | whatever status the upstream answers with, the caller of the handler as written gets 200 |
| `Relay.NotFoundBecomesOk` | tinyproxy.go:88-92 | an upstream answering 404 leaves the caller with status 200 |
| `Relay.HandleRelayingStatus` | tinyproxy.go:58-93 | the handler with the status passed on: everything as in `Handle`, and the caller's final status is 500 on a transport error and the upstream's status otherwise |

## Left out

- Start-up (tinyproxy.go:24-56, 95-103) is configuration and I/O: flag parsing, parsing and validating the remote URL, opening the log file, and starting the server. The handler takes the upstream's scheme and host as a `Target`.
- The network is not modelled. This covers `http.Client.Do`, `http.Server`, connections, and closing the response body (tinyproxy.go:81) and the gzip reader (tinyproxy.go:187). The upstream is a function from the request handed to Client.Do to a transport error or the response Client.Do returns.
- `Messages.Do`: `sent` is the request as handed to Client.Do, not the bytes on the wire. The function `upstream` stands for everything Client.Do does, and each of its failures is a Client.Do error. The Client follows 301, 302 and 303 redirects and fails after 10 of them. The Transport adds `User-Agent` when missing. When the request carries no `Accept-Encoding` or `Range` and is not HEAD, the Transport asks for gzip. It then inflates an answer whose Content-Encoding is "gzip" in any case, and drops `Content-Encoding` and `Content-Length`. The gzip branch of logResponse sees every other answer: Range and HEAD requests, callers that sent their own Accept-Encoding, and values such as "x-gzip" or "gzip, br". On a dial failure the Transport never reads the body, while `Do` always drains it.
- The headers http.Server adds to the head it sends (Date, a sniffed Content-Type when none is set, framing headers) are left out. `ResponseWriter.FinalHeader` and the header of `Handled` are the header map that head is built from.
- The gzip algorithm is a foreign library call, so the decompressor is a parameter.
- Log formatting is text output: timestamps, format strings, `%v` rendering and the blank lines around banners. Entries are recorded as values.
- The header and form lines of one message are a single entry holding the map, because Go's map iteration order is unspecified.
- `stringToReader` (tinyproxy.go:153-155) is never called.
- Concurrency between requests is left out; the handler itself is sequential.
- The chunk sizes in which io.Copy reads and writes are left out: only the bytes delivered are observable.
- Request bodies are modelled as byte sequences, and the `string(...)` conversion for the log is left out.
- `Text.LowerRune`: unicode.ToLower is modelled only for the characters whose lowercase is an ASCII letter (A-Z, U+0130, U+212A). Only those can make a value contain "gzip"; all other characters are kept unchanged.
- `Headers.CopyHeaders`: requires every source key to be in canonical form. net/http guarantees this for the response headers it parses, and `Header.Add` would otherwise merge two source keys into one.
- `Relay.Handle`: requires that nothing has been written to the ResponseWriter yet and that the upstream's answers carry canonical header keys, as the server and net/http guarantee.
- `Relay.HandleRelayingStatus`: has the same requirements as `Relay.Handle`.
- `Messages.CloneRequest`: the clone's other `http.Request` fields (Host, RemoteAddr, context and so on) are not modelled. The proxy neither sets nor reads them.
- The form data of the inbound request is an input. `r.Form` is empty unless something has parsed the form, and the proxy never does.

## Findings

| source | as written | input that shows it | evidently intended | confidence | as-written member | corrected member |
|---|---|---|---|---|---|---|
| tinyproxy.go:84-92 | the handler copies the upstream's header but never calls `w.WriteHeader(resp.StatusCode)`, so `io.Copy` sends the head with status 200 | the upstream answers 404 Not Found, or any status other than 200 | the caller receives the upstream's status, as it receives its header and body | high; not executed | `Relay.NotFoundBecomesOk` | `Relay.HandleRelayingStatus` |
