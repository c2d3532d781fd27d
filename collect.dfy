/**
 * `TempoTraces.execute` as the loops the code runs: over tag values, the
 * traces of each search, the batches of each trace, the instrumentation
 * libraries of each batch and the spans of each library, then the edge
 * derivation and the all-or-nothing result.
 */
module Collect {
  import opened Wrappers
  import opened PyDict
  import opened Graph
  import opened Tempo
  import opened Aggregate
  import opened Edges

  /** Each prefix of `xs` one element longer adds that element's items at the end. */
  lemma FlattenSnoc<T>(f: T -> seq<Item>, xs: seq<T>, i: nat)
    requires i < |xs|
    ensures Flatten(f, xs[..i + 1]) == Flatten(f, xs[..i]) + f(xs[i])
  {
    assert xs[..i + 1][..i] == xs[..i];
  }

  /** Once the walk of `a` has raised, walking `a + b` raises the same. */
  lemma FoldItemsStops(md5: Md5, cfg: Config, r: Result<Agg, string>, a: seq<Item>, b: seq<Item>)
    requires r.Success? ==> Wf(r.value) && Ready(md5, cfg, r.value)
    requires FoldItems(md5, cfg, r, a).Failure?
    ensures FoldItems(md5, cfg, r, a + b) == FoldItems(md5, cfg, r, a)
  {
    FoldItemsAppend(md5, cfg, r, a, b);
    FoldItemsFailure(md5, cfg, FoldItems(md5, cfg, r, a).error, b);
  }

  /** Walking the first `i + 1` elements is walking the first `i`, then the items of element `i`. */
  lemma WalkStep<T>(md5: Md5, cfg: Config, st: Agg, f: T -> seq<Item>, xs: seq<T>, i: nat)
    requires Wf(st) && Ready(md5, cfg, st) && i < |xs|
    ensures FoldItems(md5, cfg, Success(st), Flatten(f, xs[..i + 1]))
         == FoldItems(md5, cfg, FoldItems(md5, cfg, Success(st), Flatten(f, xs[..i])), f(xs[i]))
  {
    FlattenSnoc(f, xs, i);
    FoldItemsAppend(md5, cfg, Success(st), Flatten(f, xs[..i]), f(xs[i]));
  }

  /** A `KeyError` in the elements `done` ends the walk of all of `xs`. */
  lemma WalkStops<T>(md5: Md5, cfg: Config, st: Agg, f: T -> seq<Item>, xs: seq<T>, done: seq<T>)
    requires Wf(st) && Ready(md5, cfg, st) && done <= xs
    requires FoldItems(md5, cfg, Success(st), Flatten(f, done)).Failure?
    ensures FoldItems(md5, cfg, Success(st), Flatten(f, xs)) == FoldItems(md5, cfg, Success(st), Flatten(f, done))
  {
    var rest := xs[|done|..];
    assert xs == done + rest;
    FlattenAppend(f, done, rest);
    FoldItemsStops(md5, cfg, Success(st), Flatten(f, done), Flatten(f, rest));
  }

  /** A `KeyError` in the tag values `done` ends the walk of all of `tagValues`. */
  lemma TagsStop(md5: Md5, cfg: Config, re: Matcher, b: Backend, tagValues: seq<string>, done: seq<string>)
    requires done <= tagValues && FoldTags(md5, cfg, re, b, Success(Init()), done).Failure?
    ensures FoldTags(md5, cfg, re, b, Success(Init()), tagValues) == FoldTags(md5, cfg, re, b, Success(Init()), done)
  {
    var rest := tagValues[|done|..];
    assert tagValues == done + rest;
    FoldTagsAppend(md5, cfg, re, b, Success(Init()), done, rest);
    FoldTagsFailure(md5, cfg, re, b, FoldTags(md5, cfg, re, b, Success(Init()), done).error, rest);
  }

  /** Walking the first `i + 1` spans is walking the first `i`, then one step for span `i`. */
  lemma SpanStep(md5: Md5, cfg: Config, st: Agg, service: string, spans: seq<Span>, i: nat)
    requires Wf(st) && Ready(md5, cfg, st) && i < |spans|
    requires FoldItems(md5, cfg, Success(st), SpanItems(service, spans[..i])).Success?
    ensures FoldItems(md5, cfg, Success(st), SpanItems(service, spans[..i + 1]))
         == ItemStep(md5, cfg, FoldItems(md5, cfg, Success(st), SpanItems(service, spans[..i])).value, Item(service, spans[i]))
  {
    var it := Item(service, spans[i]);
    assert SpanItems(service, spans[..i + 1]) == SpanItems(service, spans[..i]) + [it];
    FoldItemsAppend(md5, cfg, Success(st), SpanItems(service, spans[..i]), [it]);
    assert [it][..0] == [];
  }

  /** A `KeyError` in the spans `done` ends the walk of the whole list. */
  lemma SpanStops(md5: Md5, cfg: Config, st: Agg, service: string, spans: seq<Span>, done: seq<Span>)
    requires Wf(st) && Ready(md5, cfg, st) && done <= spans
    requires FoldItems(md5, cfg, Success(st), SpanItems(service, done)).Failure?
    ensures FoldItems(md5, cfg, Success(st), SpanItems(service, spans))
         == FoldItems(md5, cfg, Success(st), SpanItems(service, done))
  {
    var rest := spans[|done|..];
    assert spans == done + rest;
    SpanItemsAppend(service, done, rest);
    FoldItemsStops(md5, cfg, Success(st), SpanItems(service, done), SpanItems(service, rest));
  }

  lemma SpanItemsAppend(service: string, a: seq<Span>, b: seq<Span>)
    ensures SpanItems(service, a + b) == SpanItems(service, a) + SpanItems(service, b)
  {
  }

  /** `for span in spans['spans']`. */
  method WalkSpans(md5: Md5, cfg: Config, st: Agg, service: string, spans: seq<Span>) returns (r: Result<Agg, string>)
    requires Wf(st) && Ready(md5, cfg, st)
    ensures r == FoldItems(md5, cfg, Success(st), SpanItems(service, spans))
  {
    r := Success(st);
    for i := 0 to |spans|
      invariant r.Success? && r == FoldItems(md5, cfg, Success(st), SpanItems(service, spans[..i]))
    {
      var next := ItemStep(md5, cfg, r.value, Item(service, spans[i]));
      SpanStep(md5, cfg, st, service, spans, i);
      if next.Failure? {
        SpanStops(md5, cfg, st, service, spans, spans[..i + 1]);
        return next;
      }
      r := next;
    }
    assert spans[..|spans|] == spans;
  }

  /** `for spans in span_resources['instrumentationLibrarySpans']`. */
  method WalkLibs(md5: Md5, cfg: Config, st: Agg, service: string, libs: seq<seq<Span>>) returns (r: Result<Agg, string>)
    requires Wf(st) && Ready(md5, cfg, st)
    ensures r == FoldItems(md5, cfg, Success(st), LibItems(service, libs))
  {
    ghost var f := (spans: seq<Span>) => SpanItems(service, spans);
    r := Success(st);
    for i := 0 to |libs|
      invariant r.Success? && r == FoldItems(md5, cfg, Success(st), Flatten(f, libs[..i]))
    {
      var next := WalkSpans(md5, cfg, r.value, service, libs[i]);
      WalkStep(md5, cfg, st, f, libs, i);
      if next.Failure? {
        WalkStops(md5, cfg, st, f, libs, libs[..i + 1]);
        return next;
      }
      r := next;
    }
    assert libs[..|libs|] == libs;
  }

  /** `for span_resources in trace_spans['batches']`. */
  method WalkBatches(md5: Md5, cfg: Config, st: Agg, batches: seq<Batch>) returns (r: Result<Agg, string>)
    requires Wf(st) && Ready(md5, cfg, st)
    ensures r == FoldItems(md5, cfg, Success(st), BatchItems(batches))
  {
    ghost var f := (b: Batch) => LibItems(b.service, b.libSpans);
    r := Success(st);
    for i := 0 to |batches|
      invariant r.Success? && r == FoldItems(md5, cfg, Success(st), Flatten(f, batches[..i]))
    {
      var next := WalkLibs(md5, cfg, r.value, batches[i].service, batches[i].libSpans);
      WalkStep(md5, cfg, st, f, batches, i);
      if next.Failure? {
        WalkStops(md5, cfg, st, f, batches, batches[..i + 1]);
        return next;
      }
      r := next;
    }
    assert batches[..|batches|] == batches;
  }

  /**
   * `for trace in all_traces['traces']`: a trace without `rootTraceName` is
   * skipped, and so is one whose `/traces/{traceID}` call is empty.
   */
  method WalkTraces(md5: Md5, cfg: Config, st: Agg, fetch: string -> Reply<seq<Batch>>, traces: seq<TraceRef>)
    returns (r: Result<Agg, string>)
    requires Wf(st) && Ready(md5, cfg, st)
    ensures r == FoldItems(md5, cfg, Success(st), TraceItems(fetch, traces))
  {
    ghost var f := (tr: TraceRef) => TraceContribution(fetch, tr);
    r := Success(st);
    for i := 0 to |traces|
      invariant r.Success? && r == FoldItems(md5, cfg, Success(st), Flatten(f, traces[..i]))
    {
      WalkStep(md5, cfg, st, f, traces, i);
      if !traces[i].hasRootTraceName {
        continue;
      }
      var trace := ApiCall(fetch(traces[i].traceId));
      if trace.None? {
        continue;
      }
      var next := WalkBatches(md5, cfg, r.value, trace.value);
      if next.Failure? {
        WalkStops(md5, cfg, st, f, traces, traces[..i + 1]);
        return next;
      }
      r := next;
    }
    assert traces[..|traces|] == traces;
  }

  /**
   * `for tag_value in all_service_tags['tagValues']`: a value is skipped when
   * the filter does not match the tag name or its search is empty; otherwise,
   * with `use_tag_as_node`, the service node is made if missing, and the
   * traces of the search, if it has any, are walked.
   */
  method WalkTags(md5: Md5, cfg: Config, re: Matcher, b: Backend, tagValues: seq<string>) returns (r: Result<Agg, string>)
    ensures r == FoldTags(md5, cfg, re, b, Success(Init()), tagValues)
  {
    r := Success(Init());
    for i := 0 to |tagValues|
      invariant r.Success? && r == FoldTags(md5, cfg, re, b, Success(Init()), tagValues[..i])
    {
      var tagValue := tagValues[i];
      assert tagValues[..i + 1][..i] == tagValues[..i];
      if !re(cfg.tagFilter, cfg.tag) {
        continue;
      }
      var search := ApiCall(b.search(tagValue));
      if search.None? {
        continue;
      }
      var st := r.value;
      if cfg.useTagAsNode {
        st := AddServiceNode(md5, cfg, st, tagValue);
      }
      var next := Success(st);
      if search.value.traces.Some? {
        next := WalkTraces(md5, cfg, st, b.trace, search.value.traces.value);
      }
      if next.Failure? {
        TagsStop(md5, cfg, re, b, tagValues, tagValues[..i + 1]);
        return next;
      }
      r := next;
    }
    assert tagValues[..|tagValues|] == tagValues;
  }

  /** What `execute` returns, or the key of the `KeyError` it raises. */
  datatype Outcome = Graph(nodes: seq<Node>, edges: seq<Edge>) | Raised(key: string)

  /** The dicts after the tag-value loop; an empty tag-values reply leaves them empty. */
  function Walk(md5: Md5, cfg: Config, re: Matcher, b: Backend): (r: Result<Agg, string>)
    ensures r.Success? ==> Wf(r.value)
  {
    match ApiCall(b.tagValues)
    case None => Success(Init())
    case Some(tagValues) => FoldTags(md5, cfg, re, b, Success(Init()), tagValues)
  }

  /** `execute` ends with both lists or neither: a graph is returned whole or not at all. */
  predicate AllOrNothing(out: Outcome)
  {
    out.Graph? ==> (out.nodes == [] <==> out.edges == [])
  }

  /**
   * The edges returned: one per pair of nodes linked by some parent span id,
   * counting those span ids, with no pair twice.
   */
  ghost predicate EdgesOf(st: Agg, edges: seq<Edge>)
  {
    && (forall i :: 0 <= i < |edges| ==>
          && IsHexDigest(edges[i].source)
          && LinkCount(st, edges[i].source, edges[i].target) > 0
          && edges[i] == Edge(edges[i].source, edges[i].target, LinkCount(st, edges[i].source, edges[i].target) as real, 0.0))
    && (forall i, j :: 0 <= i < j < |edges| ==> GetId(edges[i]) != GetId(edges[j]))
  }

  /** Every pair of nodes that some parent span id links has its edge among `edges`. */
  ghost predicate EdgesComplete(st: Agg, edges: seq<Edge>)
  {
    forall s, t :: IsHexDigest(s) && LinkCount(st, s, t) > 0 ==> Edge(s, t, LinkCount(st, s, t) as real, 0.0) in edges
  }

  /**
   * With `use_tag_as_node`, a named span without `parentSpanId` links the
   * service node to the span's node, through the service id standing in as
   * the parent: the edges `execute` returns then hold one from the service
   * node to that node, counted at least once (as long as no span's own id is
   * the service id, whose `span_to_node` entry it would overwrite).
   */
  lemma ServiceEdge(md5: Md5, cfg: Config, re: Matcher, b: Backend, i: nat)
    requires cfg.useTagAsNode && ApiCall(b.tagValues).Some?
    requires Walk(md5, cfg, re, b).Success?
    requires NoServiceSpanId(md5, cfg, TagItems(cfg, re, b, ApiCall(b.tagValues).value))
    requires i < |TagItems(cfg, re, b, ApiCall(b.tagValues).value)|
    requires TagItems(cfg, re, b, ApiCall(b.tagValues).value)[i].span.name.Some?
    requires TagItems(cfg, re, b, ApiCall(b.tagValues).value)[i].span.parentSpanId.None?
    ensures var st := Walk(md5, cfg, re, b).value;
      var it := TagItems(cfg, re, b, ApiCall(b.tagValues).value)[i];
      var sid, t := ServiceId(md5, cfg), NodeId(md5, it.service, it.span.name.value);
      && Link(t, sid, sid) in Links(st)
      && LinkCount(st, sid, t) >= 1
      && forall edges :: EdgesComplete(st, edges) ==> Edge(sid, t, LinkCount(st, sid, t) as real, 0.0) in edges
  {
    var tagValues := ApiCall(b.tagValues).value;
    var st := Walk(md5, cfg, re, b).value;
    var it := TagItems(cfg, re, b, tagValues)[i];
    var sid, t := ServiceId(md5, cfg), NodeId(md5, it.service, it.span.name.value);
    ServiceParent(md5, cfg, re, b, tagValues, i);
    LinkedBy(st, t, sid, sid);
  }

  /** The dict `DeriveEdges` builds, listed: what `execute` returns as its edges. */
  lemma EdgesResult(st: Agg, edges: Dict<string, Edge>)
    requires HexSources(st.spanToNode) && EdgeInv(edges, Links(st))
    ensures EdgesOf(st, Values(edges))
    ensures EdgesComplete(st, Values(edges))
    ensures edges.keys == [] <==> Links(st) == {}
  {
    EdgesListed(st, edges);
    EdgesAllListed(st, edges);
    EdgesEmptyIff(st, edges);
  }

  /** Every listed edge is a linked pair with its count, and no two share a `get_id`. */
  lemma EdgesListed(st: Agg, edges: Dict<string, Edge>)
    requires HexSources(st.spanToNode) && EdgeInv(edges, Links(st))
    ensures EdgesOf(st, Values(edges))
  {
    var vs := Values(edges);
    forall i | 0 <= i < |vs|
      ensures IsHexDigest(vs[i].source) && LinkCount(st, vs[i].source, vs[i].target) > 0
      ensures vs[i] == Edge(vs[i].source, vs[i].target, LinkCount(st, vs[i].source, vs[i].target) as real, 0.0)
    {
      EdgeHeld(st, edges, edges.keys[i]);
      EdgeFor(st, edges, vs[i].source, vs[i].target);
    }
    forall i, j | 0 <= i < j < |vs|
      ensures GetId(vs[i]) != GetId(vs[j])
    {
      EdgeHeld(st, edges, edges.keys[i]);
      EdgeHeld(st, edges, edges.keys[j]);
      if GetId(vs[i]) == GetId(vs[j]) {
        GetIdInjective(vs[i], vs[j]);
      }
    }
  }

  /** Every linked pair is listed, with its count. */
  lemma EdgesAllListed(st: Agg, edges: Dict<string, Edge>)
    requires HexSources(st.spanToNode) && EdgeInv(edges, Links(st))
    ensures EdgesComplete(st, Values(edges))
  {
    var vs := Values(edges);
    forall s, t | IsHexDigest(s) && LinkCount(st, s, t) > 0
      ensures Edge(s, t, LinkCount(st, s, t) as real, 0.0) in vs
    {
      EdgeFor(st, edges, s, t);
      var k := EdgeKey(s, t);
      assert k in edges.keys;
      var i :| 0 <= i < |edges.keys| && edges.keys[i] == k;
      assert vs[i] == edges.vals[k];
    }
  }

  /** The edge dict is empty exactly when nothing is linked. */
  lemma EdgesEmptyIff(st: Agg, edges: Dict<string, Edge>)
    requires HexSources(st.spanToNode) && EdgeInv(edges, Links(st))
    ensures edges.keys == [] <==> Links(st) == {}
  {
    EmptyIffNoKeys(edges);
    if Links(st) != {} {
      var l :| l in Links(st);
      assert EdgeKey(l.source, l.target) in edges.vals;
    }
    if edges.keys != [] {
      var k := edges.keys[0];
      assert EdgeOk(edges.vals[k], k, KeyCount(Links(st), k));
      var keyed := set l | l in Links(st) && EdgeKey(l.source, l.target) == k;
      assert |keyed| > 0;
      var l :| l in keyed;
    }
  }

  /**
   * `TempoTraces.execute`. An empty tag-values reply gives two empty lists. A
   * `KeyError` in the walk propagates. Edges are derived only when there are
   * nodes, and a parent span id unknown to `span_to_node` raises there. The
   * lists are returned only when both dicts are non-empty.
   */
  method Execute(md5: Md5, cfg: Config, re: Matcher, b: Backend) returns (out: Outcome)
    ensures AllOrNothing(out)
    ensures ApiCall(b.tagValues).None? ==> out == Graph([], [])
    ensures Walk(md5, cfg, re, b).Failure? ==> out == Raised(Walk(md5, cfg, re, b).error)
    ensures Walk(md5, cfg, re, b).Success? && Walk(md5, cfg, re, b).value.nodes.keys == [] ==> out == Graph([], [])
    ensures Walk(md5, cfg, re, b).Success? && Walk(md5, cfg, re, b).value.nodes.keys != [] ==>
      var st := Walk(md5, cfg, re, b).value;
      && (out.Raised? <==> !ParentsKnown(st, st.nodeSpanParent.Keys))
      && (out.Raised? ==> RecordedParent(st, out.key) && out.key !in st.spanToNode)
      && (out.Graph? && out.nodes != [] ==> out.nodes == Values(st.nodes) && EdgesOf(st, out.edges) && EdgesComplete(st, out.edges))
      && (out.Graph? && out.nodes == [] ==> Links(st) == {})
  {
    var tags := ApiCall(b.tagValues);
    if tags.None? {
      return Graph([], []);
    }
    var walked := WalkTags(md5, cfg, re, b, tags.value);
    if walked.Failure? {
      return Raised(walked.error);
    }
    var st := walked.value;
    var edges := Empty();
    if st.nodes.keys != [] {
      WfHexSources(st);
      var derived := DeriveEdges(st);
      if derived.Failure? {
        return Raised(derived.error);
      }
      edges := derived.value;
      EdgesResult(st, edges);
    }
    if st.nodes.keys != [] && edges.keys != [] {
      return Graph(Values(st.nodes), Values(edges));
    }
    return Graph([], []);
  }
}
