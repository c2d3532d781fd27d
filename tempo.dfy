/**
 * What the collector reads from the Tempo backend, as data: the replies to
 * `/search/tag/{tag}/values`, `/search?tags={tag}%3D{value}` and
 * `/traces/{traceID}`, and the rule `_api_call` applies to a reply.
 */
module Tempo {
  import opened Wrappers

  /** The body of an HTTP reply as `r.json()` sees it. */
  datatype Body<T> =
    | Unparsable        // `r.json()` raises
    | Falsy             // it parses to an empty (falsy) value such as `{}`
    | Json(value: T)    // it parses to a non-empty value

  /** A reply to one GET, or the exception `requests.get` raised instead. */
  datatype Reply<T> = ConnectionFailed | Response(status: int, body: Body<T>)

  /** `_api_call`: `None` where the code raises `EmptyResponse`. */
  function ApiCall<T>(r: Reply<T>): (o: Option<T>)
    ensures o.Some? <==> r.Response? && r.status == 200 && r.body.Json?
    ensures o.Some? ==> o.value == r.body.value
  {
    match r
    case Response(200, Json(v)) => Some(v)
    case _ => None
  }

  /**
   * One span of a batch. Only the keys the collector looks at are kept;
   * `None` is a key the span does not have.
   */
  datatype Span = Span(
    spanId: string,
    name: Option<string>,
    parentSpanId: Option<string>,
    startTimeUnixNano: int,
    endTimeUnixNano: int)

  /**
   * One entry of `batches`: the service name of its resource (the string value
   * of its first attribute) and the `spans` list of each of its
   * `instrumentationLibrarySpans`.
   */
  datatype Batch = Batch(service: string, libSpans: seq<seq<Span>>)

  /** One entry of `traces` in a search result; only whether `rootTraceName` is present matters. */
  datatype TraceRef = TraceRef(traceId: string, hasRootTraceName: bool)

  /** A search result: its `traces` list, `None` when the key is missing. */
  datatype SearchResult = SearchResult(traces: Option<seq<TraceRef>>)

  /** The replies the backend gives: to the tag-values call, per tag value, per trace id. */
  datatype Backend = Backend(
    tagValues: Reply<seq<string>>,
    search: string -> Reply<SearchResult>,
    trace: string -> Reply<seq<Batch>>)
}
