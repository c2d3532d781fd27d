/**
 * The aggregation `TempoTraces.execute` performs while it walks the backend
 * data: the three dicts `nodes`, `span_to_node` and `node_span_parent`, the
 * update one span makes to them, and that update folded over every span the
 * walk reaches, in order.
 */
module Aggregate {
  import opened Wrappers
  import opened PyDict
  import opened Graph
  import opened Tempo

  /** The constructor arguments of `TempoTraces` that `execute` reads. */
  datatype Config = Config(tag: string, tagFilter: string, useTagAsNode: bool)

  /** `re.search(pattern, string)` is truthy; left uninterpreted. */
  type Matcher = (string, string) -> bool

  /** The three dicts `execute` fills. Python sets become Dafny sets (their order is never used). */
  datatype Agg = Agg(
    nodes: Dict<string, Node>,
    spanToNode: map<string, set<string>>,
    nodeSpanParent: map<string, set<string>>)

  /** `f"{self.tag}##service"`, hashed: the one service node all tag values share. */
  function ServiceId(md5: Md5, cfg: Config): Digest
  {
    md5(cfg.tag + "##service")
  }

  /** `f"{service}##{span['name']}"`, hashed. */
  function NodeId(md5: Md5, service: string, name: string): Digest
  {
    md5(service + "##" + name)
  }

  /**
   * What the walk keeps true of the dicts: nodes are filed under their own
   * digest id, counts are non-negative, the health arcs agree with the latency,
   * and every id `node_span_parent` or `span_to_node` mentions is a node.
   */
  predicate Wf(st: Agg)
  {
    NodesOk(st.nodes) && ParentsOk(st.nodeSpanParent, st.nodes.vals.Keys) && SpansOk(st.spanToNode, st.nodes.vals.Keys)
  }

  /** Every key of `node_span_parent` is a node, with at least one parent recorded. */
  predicate ParentsOk(nsp: map<string, set<string>>, ids: set<string>)
  {
    forall k :: k in nsp ==> k in ids && nsp[k] != {}
  }

  /** `span_to_node` maps spans to nodes. */
  predicate SpansOk(stn: map<string, set<string>>, ids: set<string>)
  {
    forall p :: p in stn ==> stn[p] <= ids
  }

  predicate NodesOk(nodes: Dict<string, Node>)
  {
    && Valid(nodes)
    && (forall k :: k in nodes.vals ==>
          IsHexDigest(k) && nodes.vals[k].id == k && nodes.vals[k].mainStat >= 0.0 && Healthy(nodes.vals[k]))
  }

  /** `nodes'` keeps every node of `nodes` in place, with the same identity. */
  predicate NodesGrow(nodes: Dict<string, Node>, nodes': Dict<string, Node>)
  {
    && nodes.keys <= nodes'.keys
    && (forall k :: k in nodes.vals ==> k in nodes'.vals && SameIdentity(nodes.vals[k], nodes'.vals[k]))
  }

  /** With `use_tag_as_node`, spans are only processed once the service node exists. */
  predicate Ready(md5: Md5, cfg: Config, st: Agg)
  {
    cfg.useTagAsNode ==> ServiceId(md5, cfg) in st.nodes.vals
  }

  /** The dicts before the first tag value. */
  function Init(): (st: Agg)
    ensures Wf(st) && st.nodes.keys == [] && st.spanToNode == map[] && st.nodeSpanParent == map[]
  {
    Agg(Empty(), map[], map[])
  }

  /**
   * What a later state keeps of an earlier one: every node (at its place in
   * the insertion order, with the same identity, title, sub-title and role)
   * and every recorded parent span id.
   */
  predicate Grows(st: Agg, st': Agg)
  {
    && NodesGrow(st.nodes, st'.nodes)
    && (forall k :: k in st.nodeSpanParent ==> k in st'.nodeSpanParent && st.nodeSpanParent[k] <= st'.nodeSpanParent[k])
  }

  /** Two versions of one node object: only its counters and arcs may differ. */
  predicate SameIdentity(n: Node, n': Node)
  {
    n'.id == n.id && n'.title == n.title && n'.subTitle == n.subTitle && n'.detailRole == n.detailRole
  }

  lemma GrowsTrans(a: Agg, b: Agg, c: Agg)
    requires Grows(a, b) && Grows(b, c)
    ensures Grows(a, c)
  {
  }

  /** A node's `mainStat`, or 0 for a node not (yet) created. */
  function MainStatOf(d: Dict<string, Node>, k: string): real
  {
    if k in d.vals then d.vals[k].mainStat else 0.0
  }

  /** The parent span ids recorded for `k` so far. */
  function ParentsIn(nsp: map<string, set<string>>, k: string): set<string>
  {
    if k in nsp then nsp[k] else {}
  }

  // ---------------------------------------------------------------------------
  // One tag value's service node (collect.py, the `use_tag_as_node` block)

  /** Create the service node, titled with `tagValue`, unless it already exists. */
  function AddServiceNode(md5: Md5, cfg: Config, st: Agg, tagValue: string): (r: Agg)
    requires Wf(st)
    ensures Wf(r) && Grows(st, r)
    ensures ServiceId(md5, cfg) in r.nodes.vals
    ensures ServiceId(md5, cfg) in st.nodes.vals ==> r == st
    ensures ServiceId(md5, cfg) !in st.nodes.vals ==>
      && r.nodes.keys == st.nodes.keys + [ServiceId(md5, cfg)]
      && r.nodes.vals == st.nodes.vals[ServiceId(md5, cfg) := NewNode(ServiceId(md5, cfg), tagValue, IngressSubTitle)]
      && r.nodeSpanParent == st.nodeSpanParent
      && r.spanToNode.Keys == st.spanToNode.Keys + {ServiceId(md5, cfg)}
      && ServiceId(md5, cfg) in r.spanToNode[ServiceId(md5, cfg)]
      && r.spanToNode == st.spanToNode[ServiceId(md5, cfg) :=
           (if ServiceId(md5, cfg) in st.spanToNode then st.spanToNode[ServiceId(md5, cfg)] else {}) + {ServiceId(md5, cfg)}]
  {
    var sid := ServiceId(md5, cfg);
    if sid in st.nodes.vals then st
    else
      var old_ := if sid in st.spanToNode then st.spanToNode[sid] else {};
      Agg(SetItem(st.nodes, sid, NewNode(sid, tagValue, IngressSubTitle)),
          st.spanToNode[sid := old_ + {sid}],
          st.nodeSpanParent)
  }

  // ---------------------------------------------------------------------------
  // One span (collect.py, the body of the innermost loop)

  /** One element of the walk: a span, with the service of the batch it came in. */
  datatype Item = Item(service: string, span: Span)

  /** Find or create the span's node, then count the span against it and reclassify its health. */
  function CountSpan(nodes: Dict<string, Node>, nid: Digest, service: string, name: string, span: Span): (d: Dict<string, Node>)
    requires NodesOk(nodes)
    ensures NodesOk(d) && NodesGrow(nodes, d)
    ensures d.vals.Keys == nodes.vals.Keys + {nid}
    ensures forall k :: k in nodes.vals && k != nid ==> d.vals[k] == nodes.vals[k]
    ensures d.vals[nid].mainStat == MainStatOf(nodes, nid) + 1.0
    ensures nid !in nodes.vals ==> d.vals[nid].title == service && d.vals[nid].subTitle == name
    ensures d.vals[nid] == Observe(if nid in nodes.vals then nodes.vals[nid] else NewNode(nid, service, name),
                                   span.startTimeUnixNano, span.endTimeUnixNano)
  {
    var n := if nid in nodes.vals then nodes.vals[nid] else NewNode(nid, service, name);
    var n' := Observe(n, span.startTimeUnixNano, span.endTimeUnixNano);
    PutNode(nodes, nid, n');
    SetItem(nodes, nid, n')
  }

  /** Filing a well-formed node under its own id keeps the dict well formed and loses nothing. */
  lemma PutNode(nodes: Dict<string, Node>, k: string, n: Node)
    requires NodesOk(nodes) && IsHexDigest(k) && n.id == k && n.mainStat >= 0.0 && Healthy(n)
    requires k in nodes.vals ==> SameIdentity(nodes.vals[k], n)
    ensures NodesOk(SetItem(nodes, k, n)) && NodesGrow(nodes, SetItem(nodes, k, n))
  {
  }

  /** `service_node.mainStat += 1`: the service node also counts every named span. */
  function BumpService(nodes: Dict<string, Node>, sid: string): (d: Dict<string, Node>)
    requires NodesOk(nodes) && sid in nodes.vals
    ensures NodesOk(d) && NodesGrow(nodes, d)
    ensures d.vals.Keys == nodes.vals.Keys
    ensures forall k :: k in nodes.vals && k != sid ==> d.vals[k] == nodes.vals[k]
    ensures d.vals[sid].mainStat == nodes.vals[sid].mainStat + 1.0
  {
    SetItem(nodes, sid, nodes.vals[sid].(mainStat := nodes.vals[sid].mainStat + 1.0))
  }

  /** The parent a named span records: its `parentSpanId`, else the service node when `use_tag_as_node`. */
  function ParentOf(md5: Md5, cfg: Config, span: Span): set<string>
  {
    match span.parentSpanId
    case Some(p) => {p}
    case None => if cfg.useTagAsNode then {ServiceId(md5, cfg)} else {}
  }

  /** `node_span_parent[node_id]` (created empty if missing) gets the span's parent; nothing happens without one. */
  function RecordParent(nsp: map<string, set<string>>, nid: string, added: set<string>): map<string, set<string>>
  {
    if added == {} then nsp else nsp[nid := ParentsIn(nsp, nid) + added]
  }

  /** Node `k`'s parents after `RecordParent`. */
  lemma RecordParentAt(nsp: map<string, set<string>>, nid: string, added: set<string>, k: string)
    ensures ParentsIn(RecordParent(nsp, nid, added), k) == ParentsIn(nsp, k) + if k == nid then added else {}
  {
  }

  lemma RecordParentKeeps(nsp: map<string, set<string>>, nid: string, added: set<string>, ids: set<string>)
    requires ParentsOk(nsp, ids) && nid in ids
    ensures ParentsOk(RecordParent(nsp, nid, added), ids)
    ensures forall k :: k in nsp ==> k in RecordParent(nsp, nid, added) && nsp[k] <= RecordParent(nsp, nid, added)[k]
  {
  }

  /**
   * The `span_to_node` update. The guard asks whether the NODE id is a key,
   * but the dict is written under the SPAN id: a node id not yet a key resets
   * the span's set to the node alone, and a node id already a key adds to the
   * span's set, which raises `KeyError` when the span id is not a key.
   */
  function RecordSpan(stn: map<string, set<string>>, spanId: string, nid: string): (r: Result<map<string, set<string>>, string>)
    ensures r.Failure? <==> nid in stn && spanId !in stn
    ensures r.Failure? ==> r.error == spanId
    ensures nid !in stn ==> r == Success(stn[spanId := {nid}])
    ensures nid in stn && spanId in stn ==> r == Success(stn[spanId := stn[spanId] + {nid}])
  {
    if nid !in stn then Success(stn[spanId := {nid}])
    else if spanId in stn then Success(stn[spanId := stn[spanId] + {nid}])
    else Failure(spanId)
  }

  /** `span_to_node` only ever maps to the node of the span being recorded, or to nodes it mapped to before. */
  lemma RecordSpanBounded(stn: map<string, set<string>>, spanId: string, nid: string, ids: set<string>)
    requires SpansOk(stn, ids)
    requires RecordSpan(stn, spanId, nid).Success?
    ensures SpansOk(RecordSpan(stn, spanId, nid).value, ids + {nid})
  {
  }

  /** The dicts after a named span whose `span_to_node` write succeeds, giving `stn`. */
  function SpanUpdate(md5: Md5, cfg: Config, st: Agg, service: string, name: string, span: Span, stn: map<string, set<string>>): (r: Agg)
    requires Wf(st) && Ready(md5, cfg, st)
    requires RecordSpan(st.spanToNode, span.spanId, NodeId(md5, service, name)) == Success(stn)
    ensures Wf(r) && Ready(md5, cfg, r) && Grows(st, r)
  {
    var nid := NodeId(md5, service, name);
    var sid := ServiceId(md5, cfg);
    var counted := CountSpan(st.nodes, nid, service, name, span);
    var nodes := if cfg.useTagAsNode then BumpService(counted, sid) else counted;
    RecordSpanBounded(st.spanToNode, span.spanId, nid, st.nodes.vals.Keys);
    RecordParentKeeps(st.nodeSpanParent, nid, ParentOf(md5, cfg, span), nodes.vals.Keys);
    Agg(nodes, stn, RecordParent(st.nodeSpanParent, nid, ParentOf(md5, cfg, span)))
  }

  /** Everything one span does to the dicts; a span without `name` does nothing. */
  function ItemStep(md5: Md5, cfg: Config, st: Agg, it: Item): (r: Result<Agg, string>)
    requires Wf(st) && Ready(md5, cfg, st)
    ensures r.Success? ==> Wf(r.value) && Ready(md5, cfg, r.value) && Grows(st, r.value)
    ensures it.span.name.None? ==> r == Success(st)
    ensures it.span.name.Some? ==>
      (r.Failure? <==> NodeId(md5, it.service, it.span.name.value) in st.spanToNode && it.span.spanId !in st.spanToNode)
  {
    match it.span.name
    case None => Success(st)
    case Some(name) =>
      match RecordSpan(st.spanToNode, it.span.spanId, NodeId(md5, it.service, name))
      case Failure(e) => Failure(e)
      case Success(stn) => Success(SpanUpdate(md5, cfg, st, it.service, name, it.span, stn))
  }

  /** The walk: each item in turn; the first `KeyError` ends it. */
  function FoldItems(md5: Md5, cfg: Config, r: Result<Agg, string>, xs: seq<Item>): (r': Result<Agg, string>)
    requires r.Success? ==> Wf(r.value) && Ready(md5, cfg, r.value)
    ensures r'.Success? ==> r.Success? && Wf(r'.value) && Ready(md5, cfg, r'.value) && Grows(r.value, r'.value)
    decreases |xs|
  {
    if xs == [] then r
    else
      var p := FoldItems(md5, cfg, r, xs[..|xs| - 1]);
      if p.Failure? then p
      else
        var q := ItemStep(md5, cfg, p.value, xs[|xs| - 1]);
        if q.Success? then GrowsTrans(r.value, p.value, q.value); q else q
  }

  /** `FoldItems` stops at the first failure. */
  lemma {:induction false} FoldItemsFailure(md5: Md5, cfg: Config, e: string, xs: seq<Item>)
    ensures FoldItems(md5, cfg, Failure(e), xs) == Failure(e)
    decreases |xs|
  {
    if xs != [] {
      FoldItemsFailure(md5, cfg, e, xs[..|xs| - 1]);
    }
  }

  /** Walking `a + b` is walking `a`, then `b` from where `a` left off. */
  lemma {:induction false} FoldItemsAppend(md5: Md5, cfg: Config, r: Result<Agg, string>, a: seq<Item>, b: seq<Item>)
    requires r.Success? ==> Wf(r.value) && Ready(md5, cfg, r.value)
    ensures FoldItems(md5, cfg, r, a + b) == FoldItems(md5, cfg, FoldItems(md5, cfg, r, a), b)
    decreases |b|
  {
    if b == [] {
      assert a + b == a;
    } else {
      var n := |b| - 1;
      var ab := a + b;
      assert ab[..|ab| - 1] == a + b[..n] && ab[|ab| - 1] == b[n];
      FoldItemsAppend(md5, cfg, r, a, b[..n]);
      var p := FoldItems(md5, cfg, r, a + b[..n]);
      assert FoldItems(md5, cfg, r, ab) == if p.Failure? then p else ItemStep(md5, cfg, p.value, b[n]);
    }
  }

  // ---------------------------------------------------------------------------
  // The walk as a stream of items (collect.py, the loops over traces, batches,
  // instrumentation-library spans and spans)

  /** The items of each element of `xs`, one element after the other. */
  function Flatten<T>(f: T -> seq<Item>, xs: seq<T>): seq<Item>
  {
    if xs == [] then [] else Flatten(f, xs[..|xs| - 1]) + f(xs[|xs| - 1])
  }

  lemma {:induction false} FlattenAppend<T>(f: T -> seq<Item>, a: seq<T>, b: seq<T>)
    ensures Flatten(f, a + b) == Flatten(f, a) + Flatten(f, b)
    decreases |b|
  {
    if b == [] {
      assert a + b == a;
    } else {
      var n := |b| - 1;
      assert (a + b)[..|a + b| - 1] == a + b[..n];
      FlattenAppend(f, a, b[..n]);
    }
  }

  /** The spans of one `spans` list, each with the batch's service. */
  function SpanItems(service: string, spans: seq<Span>): (xs: seq<Item>)
    ensures |xs| == |spans| && forall i :: 0 <= i < |xs| ==> xs[i] == Item(service, spans[i])
  {
    seq(|spans|, i requires 0 <= i < |spans| => Item(service, spans[i]))
  }

  /** The spans of a batch, over its `instrumentationLibrarySpans` in order. */
  function LibItems(service: string, libs: seq<seq<Span>>): seq<Item>
  {
    Flatten((spans: seq<Span>) => SpanItems(service, spans), libs)
  }

  /** The spans of a trace, over its `batches` in order. */
  function BatchItems(batches: seq<Batch>): seq<Item>
  {
    Flatten((b: Batch) => LibItems(b.service, b.libSpans), batches)
  }

  /** A trace without `rootTraceName`, or whose fetch is empty, contributes nothing. */
  function TraceContribution(fetch: string -> Reply<seq<Batch>>, tr: TraceRef): seq<Item>
  {
    if !tr.hasRootTraceName then []
    else match ApiCall(fetch(tr.traceId))
      case None => []
      case Some(batches) => BatchItems(batches)
  }

  /** The spans of a search result's traces, in order. */
  function TraceItems(fetch: string -> Reply<seq<Batch>>, traces: seq<TraceRef>): seq<Item>
  {
    Flatten((tr: TraceRef) => TraceContribution(fetch, tr), traces)
  }

  // ---------------------------------------------------------------------------
  // Counting

  /** The spans among `xs` that carry a `name` and map to node `k`. */
  function Count(md5: Md5, xs: seq<Item>, k: string): nat
  {
    if xs == [] then 0
    else
      var it := xs[|xs| - 1];
      Count(md5, xs[..|xs| - 1], k) + if it.span.name.Some? && NodeId(md5, it.service, it.span.name.value) == k then 1 else 0
  }

  /** The spans among `xs` that carry a `name`. */
  function Named(xs: seq<Item>): nat
  {
    if xs == [] then 0 else Named(xs[..|xs| - 1]) + if xs[|xs| - 1].span.name.Some? then 1 else 0
  }

  /** What `xs` adds to node `k`'s `mainStat`: its own spans, plus every span when `k` is the service node. */
  function Added(md5: Md5, cfg: Config, xs: seq<Item>, k: string): real
  {
    Count(md5, xs, k) as real + if cfg.useTagAsNode && k == ServiceId(md5, cfg) then Named(xs) as real else 0.0
  }

  /**
   * Counting: walking `xs` adds to each node's `mainStat` exactly its named
   * spans, plus all named spans for the service node, and creates exactly
   * the nodes some named span maps to.
   */
  lemma {:induction false} FoldItemsCounts(md5: Md5, cfg: Config, st: Agg, xs: seq<Item>, k: string)
    requires Wf(st) && Ready(md5, cfg, st)
    requires FoldItems(md5, cfg, Success(st), xs).Success?
    ensures var st' := FoldItems(md5, cfg, Success(st), xs).value;
      && MainStatOf(st'.nodes, k) == MainStatOf(st.nodes, k) + Added(md5, cfg, xs, k)
      && (k in st'.nodes.vals <==> k in st.nodes.vals || Count(md5, xs, k) > 0)
    decreases |xs|
  {
    if xs != [] {
      var n := |xs| - 1;
      var p := FoldItems(md5, cfg, Success(st), xs[..n]);
      FoldItemsCounts(md5, cfg, st, xs[..n], k);
      var it := xs[n];
      var q := ItemStep(md5, cfg, p.value, it);
      assert FoldItems(md5, cfg, Success(st), xs) == q;
      StepCounts(md5, cfg, p.value, it, k);
    }
  }

  /** One span adds one to its own node's `mainStat`, and one to the service node's, creating only its own node. */
  lemma StepCounts(md5: Md5, cfg: Config, st: Agg, it: Item, k: string)
    requires Wf(st) && Ready(md5, cfg, st)
    requires ItemStep(md5, cfg, st, it).Success?
    ensures var st' := ItemStep(md5, cfg, st, it).value;
      && MainStatOf(st'.nodes, k) == MainStatOf(st.nodes, k)
           + (if MapsTo(md5, it, k) then 1.0 else 0.0)
           + (if cfg.useTagAsNode && k == ServiceId(md5, cfg) && it.span.name.Some? then 1.0 else 0.0)
      && (k in st'.nodes.vals <==> k in st.nodes.vals || MapsTo(md5, it, k))
  {
    match it.span.name
    case None =>
    case Some(name) =>
      var nid := NodeId(md5, it.service, name);
      var stn := RecordSpan(st.spanToNode, it.span.spanId, nid).value;
      var counted := CountSpan(st.nodes, nid, it.service, name, it.span);
      assert SpanUpdate(md5, cfg, st, it.service, name, it.span, stn).nodes
          == if cfg.useTagAsNode then BumpService(counted, ServiceId(md5, cfg)) else counted;
  }

  /** Whether item `it` is a named span that maps to node `k`. */
  predicate MapsTo(md5: Md5, it: Item, k: string)
  {
    it.span.name.Some? && NodeId(md5, it.service, it.span.name.value) == k
  }

  /** The parents item `it` records for node `k`. */
  function StepParents(md5: Md5, cfg: Config, it: Item, k: string): set<string>
  {
    if MapsTo(md5, it, k) then ParentOf(md5, cfg, it.span) else {}
  }

  /** The parents the spans of `xs` that map to `k` record. */
  function ParentsOf(md5: Md5, cfg: Config, xs: seq<Item>, k: string): set<string>
  {
    if xs == [] then {}
    else
      var it := xs[|xs| - 1];
      ParentsOf(md5, cfg, xs[..|xs| - 1], k) + StepParents(md5, cfg, it, k)
  }

  /**
   * `node_span_parent`: walking `xs` adds to node `k`'s set exactly the
   * parents its spans record (the service node standing in for a missing
   * parent when `use_tag_as_node`); `k` is a key exactly when its set is not
   * empty (`Wf`).
   */
  lemma {:induction false} FoldItemsParents(md5: Md5, cfg: Config, st: Agg, xs: seq<Item>, k: string)
    requires Wf(st) && Ready(md5, cfg, st)
    requires FoldItems(md5, cfg, Success(st), xs).Success?
    ensures ParentsIn(FoldItems(md5, cfg, Success(st), xs).value.nodeSpanParent, k)
         == ParentsIn(st.nodeSpanParent, k) + ParentsOf(md5, cfg, xs, k)
    decreases |xs|
  {
    if xs != [] {
      var n := |xs| - 1;
      var p := FoldItems(md5, cfg, Success(st), xs[..n]);
      FoldItemsParents(md5, cfg, st, xs[..n], k);
      ItemStepParents(md5, cfg, p.value, xs[n], k);
    }
  }

  lemma ItemStepParents(md5: Md5, cfg: Config, st: Agg, it: Item, k: string)
    requires Wf(st) && Ready(md5, cfg, st)
    requires ItemStep(md5, cfg, st, it).Success?
    ensures ParentsIn(ItemStep(md5, cfg, st, it).value.nodeSpanParent, k)
         == ParentsIn(st.nodeSpanParent, k) + StepParents(md5, cfg, it, k)
  {
    if it.span.name.Some? {
      var nid := NodeId(md5, it.service, it.span.name.value);
      ItemStepRecords(md5, cfg, st, it);
      RecordParentAt(st.nodeSpanParent, nid, ParentOf(md5, cfg, it.span), k);
    }
  }

  /** A named span's step records its parent under its node. */
  lemma ItemStepRecords(md5: Md5, cfg: Config, st: Agg, it: Item)
    requires Wf(st) && Ready(md5, cfg, st)
    requires ItemStep(md5, cfg, st, it).Success? && it.span.name.Some?
    ensures ItemStep(md5, cfg, st, it).value.nodeSpanParent
         == RecordParent(st.nodeSpanParent, NodeId(md5, it.service, it.span.name.value), ParentOf(md5, cfg, it.span))
  {
    var name := it.span.name.value;
    var stn := RecordSpan(st.spanToNode, it.span.spanId, NodeId(md5, it.service, name)).value;
    assert ItemStep(md5, cfg, st, it) == Success(SpanUpdate(md5, cfg, st, it.service, name, it.span, stn));
  }

  /** The first span of `xs` that maps to `k`. */
  function FirstFor(md5: Md5, xs: seq<Item>, k: string): (o: Option<Item>)
    ensures o.Some? ==> MapsTo(md5, o.value, k)
  {
    if xs == [] then None
    else
      var o := FirstFor(md5, xs[..|xs| - 1], k);
      if o.Some? then o else if MapsTo(md5, xs[|xs| - 1], k) then Some(xs[|xs| - 1]) else None
  }

  /**
   * A node the walk creates takes its title and sub-title from the first span
   * that maps to it (its service and name); later spans only add to it.
   */
  lemma {:induction false} FoldItemsTitles(md5: Md5, cfg: Config, st: Agg, xs: seq<Item>, k: string)
    requires Wf(st) && Ready(md5, cfg, st)
    requires FoldItems(md5, cfg, Success(st), xs).Success?
    requires k !in st.nodes.vals && k in FoldItems(md5, cfg, Success(st), xs).value.nodes.vals
    ensures FirstFor(md5, xs, k).Some?
    ensures var n := FoldItems(md5, cfg, Success(st), xs).value.nodes.vals[k];
      var it := FirstFor(md5, xs, k).value;
      n.title == it.service && n.subTitle == it.span.name.value
    decreases |xs|
  {
    var n := |xs| - 1;
    var p := FoldItems(md5, cfg, Success(st), xs[..n]);
    if k in p.value.nodes.vals {
      FoldItemsTitles(md5, cfg, st, xs[..n], k);
    } else {
      FoldItemsCounts(md5, cfg, st, xs[..n], k);
      FirstForNone(md5, xs[..n], k);
      var it := xs[n];
      var name := it.span.name.value;
      var nid := NodeId(md5, it.service, name);
      var stn := RecordSpan(p.value.spanToNode, it.span.spanId, nid).value;
      var counted := CountSpan(p.value.nodes, nid, it.service, name, it.span);
      assert SpanUpdate(md5, cfg, p.value, it.service, name, it.span, stn).nodes
          == if cfg.useTagAsNode then BumpService(counted, ServiceId(md5, cfg)) else counted;
    }
  }

  lemma {:induction false} FirstForNone(md5: Md5, xs: seq<Item>, k: string)
    requires Count(md5, xs, k) == 0
    ensures FirstFor(md5, xs, k).None?
    decreases |xs|
  {
    if xs != [] {
      FirstForNone(md5, xs[..|xs| - 1], k);
    }
  }

  /** Count and Named add up over concatenation. */
  lemma {:induction false} CountAppend(md5: Md5, a: seq<Item>, b: seq<Item>, k: string)
    ensures Count(md5, a + b, k) == Count(md5, a, k) + Count(md5, b, k)
    ensures Named(a + b) == Named(a) + Named(b)
    decreases |b|
  {
    if b == [] {
      assert a + b == a;
    } else {
      var n := |b| - 1;
      assert (a + b)[..|a + b| - 1] == a + b[..n];
      CountAppend(md5, a, b[..n], k);
    }
  }

  // ---------------------------------------------------------------------------
  // The tag-value loop (collect.py, `for tag_value in all_service_tags['tagValues']`)

  /**
   * A tag value is accepted when the filter matches and its search is not
   * empty. The filter is matched against the tag NAME, as the code does, so
   * it accepts or rejects every value alike.
   */
  predicate Accepted(cfg: Config, re: Matcher, b: Backend, tagValue: string)
  {
    re(cfg.tagFilter, cfg.tag) && ApiCall(b.search(tagValue)).Some?
  }

  /** The spans of a search result: those of its `traces`, if it has the key. */
  function SearchItems(fetch: string -> Reply<seq<Batch>>, sr: SearchResult): seq<Item>
  {
    match sr.traces
    case None => []
    case Some(traces) => TraceItems(fetch, traces)
  }

  /** The spans one tag value contributes. */
  function TagContribution(cfg: Config, re: Matcher, b: Backend, tagValue: string): seq<Item>
  {
    if Accepted(cfg, re, b, tagValue) then SearchItems(b.trace, ApiCall(b.search(tagValue)).value) else []
  }

  /** All spans the walk reaches, over the tag values in order. */
  function TagItems(cfg: Config, re: Matcher, b: Backend, tagValues: seq<string>): seq<Item>
  {
    Flatten((tv: string) => TagContribution(cfg, re, b, tv), tagValues)
  }

  /** One tag value: maybe the service node, then the spans of its search. */
  function TagStep(md5: Md5, cfg: Config, re: Matcher, b: Backend, r: Result<Agg, string>, tagValue: string): (r': Result<Agg, string>)
    requires r.Success? ==> Wf(r.value)
    ensures r'.Success? ==> r.Success? && Wf(r'.value) && Grows(r.value, r'.value)
  {
    if r.Failure? || !Accepted(cfg, re, b, tagValue) then r
    else
      var st := if cfg.useTagAsNode then AddServiceNode(md5, cfg, r.value, tagValue) else r.value;
      FoldItems(md5, cfg, Success(st), TagContribution(cfg, re, b, tagValue))
  }

  /** The tag-value loop. */
  function FoldTags(md5: Md5, cfg: Config, re: Matcher, b: Backend, r: Result<Agg, string>, tagValues: seq<string>): (r': Result<Agg, string>)
    requires r.Success? ==> Wf(r.value)
    ensures r'.Success? ==> r.Success? && Wf(r'.value) && Grows(r.value, r'.value)
    decreases |tagValues|
  {
    if tagValues == [] then r
    else
      var n := |tagValues| - 1;
      TagStep(md5, cfg, re, b, FoldTags(md5, cfg, re, b, r, tagValues[..n]), tagValues[n])
  }

  lemma {:induction false} FoldTagsFailure(md5: Md5, cfg: Config, re: Matcher, b: Backend, e: string, tagValues: seq<string>)
    ensures FoldTags(md5, cfg, re, b, Failure(e), tagValues) == Failure(e)
    decreases |tagValues|
  {
    if tagValues != [] {
      FoldTagsFailure(md5, cfg, re, b, e, tagValues[..|tagValues| - 1]);
    }
  }

  lemma {:induction false} FoldTagsAppend(md5: Md5, cfg: Config, re: Matcher, b: Backend, r: Result<Agg, string>, xs: seq<string>, ys: seq<string>)
    requires r.Success? ==> Wf(r.value)
    ensures FoldTags(md5, cfg, re, b, r, xs + ys) == FoldTags(md5, cfg, re, b, FoldTags(md5, cfg, re, b, r, xs), ys)
    decreases |ys|
  {
    if ys == [] {
      assert xs + ys == xs;
    } else {
      var n := |ys| - 1;
      assert (xs + ys)[..|xs + ys| - 1] == xs + ys[..n];
      FoldTagsAppend(md5, cfg, re, b, r, xs, ys[..n]);
    }
  }

  /**
   * Counting over the whole walk: each node's `mainStat` grows by its named
   * spans, and the service node's also by every named span; the service node
   * itself starts at 0.
   */
  lemma {:induction false} FoldTagsCounts(md5: Md5, cfg: Config, re: Matcher, b: Backend, st: Agg, tagValues: seq<string>, k: string)
    requires Wf(st)
    requires FoldTags(md5, cfg, re, b, Success(st), tagValues).Success?
    ensures MainStatOf(FoldTags(md5, cfg, re, b, Success(st), tagValues).value.nodes, k)
         == MainStatOf(st.nodes, k) + Added(md5, cfg, TagItems(cfg, re, b, tagValues), k)
    decreases |tagValues|
  {
    if tagValues != [] {
      var n := |tagValues| - 1;
      var tv := tagValues[n];
      var p := FoldTags(md5, cfg, re, b, Success(st), tagValues[..n]);
      FoldTagsCounts(md5, cfg, re, b, st, tagValues[..n], k);
      assert FoldTags(md5, cfg, re, b, Success(st), tagValues) == TagStep(md5, cfg, re, b, p, tv);
      assert TagItems(cfg, re, b, tagValues) == TagItems(cfg, re, b, tagValues[..n]) + TagContribution(cfg, re, b, tv);
      CountAppend(md5, TagItems(cfg, re, b, tagValues[..n]), TagContribution(cfg, re, b, tv), k);
      TagStepCounts(md5, cfg, re, b, p.value, tv, k);
    }
  }

  /** One tag value adds its spans' counts, and creates their nodes and, once accepted, the service node. */
  lemma TagStepCounts(md5: Md5, cfg: Config, re: Matcher, b: Backend, st: Agg, tv: string, k: string)
    requires Wf(st)
    requires TagStep(md5, cfg, re, b, Success(st), tv).Success?
    ensures MainStatOf(TagStep(md5, cfg, re, b, Success(st), tv).value.nodes, k)
         == MainStatOf(st.nodes, k) + Added(md5, cfg, TagContribution(cfg, re, b, tv), k)
    ensures k in TagStep(md5, cfg, re, b, Success(st), tv).value.nodes.vals
        <==> || k in st.nodes.vals
             || Count(md5, TagContribution(cfg, re, b, tv), k) > 0
             || (cfg.useTagAsNode && k == ServiceId(md5, cfg) && Accepted(cfg, re, b, tv))
  {
    if Accepted(cfg, re, b, tv) {
      var s := if cfg.useTagAsNode then AddServiceNode(md5, cfg, st, tv) else st;
      assert MainStatOf(s.nodes, k) == MainStatOf(st.nodes, k);
      FoldItemsCounts(md5, cfg, s, TagContribution(cfg, re, b, tv), k);
    }
  }

  /** Some tag value is accepted. */
  predicate AnyAccepted(cfg: Config, re: Matcher, b: Backend, tagValues: seq<string>)
  {
    tagValues != [] && (AnyAccepted(cfg, re, b, tagValues[..|tagValues| - 1]) || Accepted(cfg, re, b, tagValues[|tagValues| - 1]))
  }

  /** Which nodes the whole walk creates: those its named spans map to, and the service node once a tag value is accepted. */
  lemma {:induction false} FoldTagsNodes(md5: Md5, cfg: Config, re: Matcher, b: Backend, st: Agg, tagValues: seq<string>, k: string)
    requires Wf(st)
    requires FoldTags(md5, cfg, re, b, Success(st), tagValues).Success?
    ensures k in FoldTags(md5, cfg, re, b, Success(st), tagValues).value.nodes.vals
        <==> || k in st.nodes.vals
             || Count(md5, TagItems(cfg, re, b, tagValues), k) > 0
             || (cfg.useTagAsNode && k == ServiceId(md5, cfg) && AnyAccepted(cfg, re, b, tagValues))
    decreases |tagValues|
  {
    if tagValues != [] {
      var n := |tagValues| - 1;
      var tv := tagValues[n];
      var p := FoldTags(md5, cfg, re, b, Success(st), tagValues[..n]);
      FoldTagsNodes(md5, cfg, re, b, st, tagValues[..n], k);
      assert FoldTags(md5, cfg, re, b, Success(st), tagValues) == TagStep(md5, cfg, re, b, p, tv);
      assert TagItems(cfg, re, b, tagValues) == TagItems(cfg, re, b, tagValues[..n]) + TagContribution(cfg, re, b, tv);
      CountAppend(md5, TagItems(cfg, re, b, tagValues[..n]), TagContribution(cfg, re, b, tv), k);
      TagStepCounts(md5, cfg, re, b, p.value, tv, k);
    }
  }

  /** Tag values that are not accepted contribute nothing at all. */
  lemma {:induction false} FoldTagsRejected(md5: Md5, cfg: Config, re: Matcher, b: Backend, r: Result<Agg, string>, tagValues: seq<string>)
    requires r.Success? ==> Wf(r.value)
    requires forall i :: 0 <= i < |tagValues| ==> !Accepted(cfg, re, b, tagValues[i])
    ensures FoldTags(md5, cfg, re, b, r, tagValues) == r
    decreases |tagValues|
  {
    if tagValues != [] {
      var n := |tagValues| - 1;
      assert forall i :: 0 <= i < n ==> tagValues[..n][i] == tagValues[i];
      FoldTagsRejected(md5, cfg, re, b, r, tagValues[..n]);
    }
  }

  /** The filter is matched against the tag name: when it does not match, no tag value is searched and nothing is built. */
  lemma FilterRejectsEverything(md5: Md5, cfg: Config, re: Matcher, b: Backend, tagValues: seq<string>)
    requires !re(cfg.tagFilter, cfg.tag)
    ensures FoldTags(md5, cfg, re, b, Success(Init()), tagValues) == Success(Init())
  {
    FoldTagsRejected(md5, cfg, re, b, Success(Init()), tagValues);
  }

  /** ... and the walk depends on the matcher only through that one answer. */
  lemma {:induction false} FoldTagsMatcher(
    md5: Md5, cfg: Config, re1: Matcher, re2: Matcher, b: Backend, r: Result<Agg, string>, tagValues: seq<string>)
    requires r.Success? ==> Wf(r.value)
    requires re1(cfg.tagFilter, cfg.tag) == re2(cfg.tagFilter, cfg.tag)
    ensures FoldTags(md5, cfg, re1, b, r, tagValues) == FoldTags(md5, cfg, re2, b, r, tagValues)
    decreases |tagValues|
  {
    if tagValues != [] {
      FoldTagsMatcher(md5, cfg, re1, re2, b, r, tagValues[..|tagValues| - 1]);
    }
  }

  /**
   * The service node: with `use_tag_as_node`, it exists once a tag value is
   * accepted, and keeps the title of the FIRST accepted tag value and the
   * sub-title "Trace ingress" whatever follows.
   */
  lemma ServiceNodeTitle(md5: Md5, cfg: Config, re: Matcher, b: Backend, tagValues: seq<string>, i: nat)
    requires cfg.useTagAsNode
    requires FoldTags(md5, cfg, re, b, Success(Init()), tagValues).Success?
    requires i < |tagValues| && Accepted(cfg, re, b, tagValues[i])
    requires forall j :: 0 <= j < i ==> !Accepted(cfg, re, b, tagValues[j])
    ensures var nodes := FoldTags(md5, cfg, re, b, Success(Init()), tagValues).value.nodes;
      && ServiceId(md5, cfg) in nodes.vals
      && nodes.vals[ServiceId(md5, cfg)].title == tagValues[i]
      && nodes.vals[ServiceId(md5, cfg)].subTitle == IngressSubTitle
  {
    var init := Success(Init());
    ServiceNodeCreated(md5, cfg, re, b, tagValues, i);
    assert tagValues == tagValues[..i + 1] + tagValues[i + 1..];
    FoldTagsAppend(md5, cfg, re, b, init, tagValues[..i + 1], tagValues[i + 1..]);
    FoldTagsKeepsNode(md5, cfg, re, b, FoldTags(md5, cfg, re, b, init, tagValues[..i + 1]), tagValues[i + 1..], ServiceId(md5, cfg));
  }

  /** The first accepted tag value creates the service node with its title. */
  lemma ServiceNodeCreated(md5: Md5, cfg: Config, re: Matcher, b: Backend, tagValues: seq<string>, i: nat)
    requires cfg.useTagAsNode
    requires i < |tagValues| && Accepted(cfg, re, b, tagValues[i])
    requires forall j :: 0 <= j < i ==> !Accepted(cfg, re, b, tagValues[j])
    ensures var r := FoldTags(md5, cfg, re, b, Success(Init()), tagValues[..i + 1]);
      r.Success? ==>
        && ServiceId(md5, cfg) in r.value.nodes.vals
        && r.value.nodes.vals[ServiceId(md5, cfg)].title == tagValues[i]
        && r.value.nodes.vals[ServiceId(md5, cfg)].subTitle == IngressSubTitle
  {
    var sid := ServiceId(md5, cfg);
    var svc := AddServiceNode(md5, cfg, Init(), tagValues[i]);
    FirstAccepted(md5, cfg, re, b, tagValues, i);
    var s1 := FoldItems(md5, cfg, Success(svc), TagContribution(cfg, re, b, tagValues[i]));
    if s1.Success? {
      assert svc.nodes.vals[sid] == NewNode(sid, tagValues[i], IngressSubTitle);
      GrowsKeepsNode(svc, s1.value, sid);
    }
  }

  /** The tag-value loop keeps every node it starts with, with the same identity. */
  lemma FoldTagsKeepsNode(md5: Md5, cfg: Config, re: Matcher, b: Backend, r: Result<Agg, string>, tagValues: seq<string>, k: string)
    requires r.Success? ==> Wf(r.value)
    ensures var r' := FoldTags(md5, cfg, re, b, r, tagValues);
      r'.Success? && k in r.value.nodes.vals ==> k in r'.value.nodes.vals && SameIdentity(r.value.nodes.vals[k], r'.value.nodes.vals[k])
  {
    var r' := FoldTags(md5, cfg, re, b, r, tagValues);
    if r'.Success? && k in r.value.nodes.vals {
      GrowsKeepsNode(r.value, r'.value, k);
    }
  }

  /** Up to the first accepted tag value, the walk is that value's step from the empty dicts. */
  lemma FirstAccepted(md5: Md5, cfg: Config, re: Matcher, b: Backend, tagValues: seq<string>, i: nat)
    requires cfg.useTagAsNode
    requires i < |tagValues| && Accepted(cfg, re, b, tagValues[i])
    requires forall j :: 0 <= j < i ==> !Accepted(cfg, re, b, tagValues[j])
    ensures FoldTags(md5, cfg, re, b, Success(Init()), tagValues[..i + 1])
         == FoldItems(md5, cfg, Success(AddServiceNode(md5, cfg, Init(), tagValues[i])), TagContribution(cfg, re, b, tagValues[i]))
  {
    var before := tagValues[..i];
    assert forall j :: 0 <= j < |before| ==> before[j] == tagValues[j];
    FoldTagsRejected(md5, cfg, re, b, Success(Init()), before);
    assert tagValues[..i + 1][..i] == before;
  }

  /** A node present before is still present later, with the same identity. */
  lemma GrowsKeepsNode(st: Agg, st': Agg, k: string)
    requires Grows(st, st') && k in st.nodes.vals
    ensures k in st'.nodes.vals && SameIdentity(st.nodes.vals[k], st'.nodes.vals[k])
  {
  }

  // ---------------------------------------------------------------------------
  // Exclusions: what contributes nothing

  /** A span without `name` can be dropped from the walk. */
  lemma UnnamedSpanIgnored(md5: Md5, cfg: Config, r: Result<Agg, string>, xs: seq<Item>, i: nat)
    requires r.Success? ==> Wf(r.value) && Ready(md5, cfg, r.value)
    requires i < |xs| && xs[i].span.name.None?
    ensures FoldItems(md5, cfg, r, xs[..i] + xs[i + 1..]) == FoldItems(md5, cfg, r, xs)
  {
    assert xs == xs[..i] + [xs[i]] + xs[i + 1..];
    FoldItemsAppend(md5, cfg, r, xs[..i], [xs[i]]);
    FoldItemsAppend(md5, cfg, r, xs[..i] + [xs[i]], xs[i + 1..]);
    FoldItemsAppend(md5, cfg, r, xs[..i], xs[i + 1..]);
    assert [xs[i]][..0] == [];
  }

  /** A trace without `rootTraceName`, or whose fetch is empty, can be dropped from a search result. */
  lemma ExcludedTraceIgnored(fetch: string -> Reply<seq<Batch>>, traces: seq<TraceRef>, i: nat)
    requires i < |traces|
    requires !traces[i].hasRootTraceName || ApiCall(fetch(traces[i].traceId)).None?
    ensures TraceItems(fetch, traces[..i] + traces[i + 1..]) == TraceItems(fetch, traces)
  {
    var f := (tr: TraceRef) => TraceContribution(fetch, tr);
    var before, after := traces[..i], traces[i + 1..];
    assert traces == before + [traces[i]] + after;
    FlattenSkip(f, before, traces[i], after);
  }

  /** An element that contributes no items can be dropped from a flattening. */
  lemma FlattenSkip<T>(f: T -> seq<Item>, a: seq<T>, x: T, b: seq<T>)
    requires f(x) == []
    ensures Flatten(f, a + [x] + b) == Flatten(f, a + b)
  {
    FlattenAppend(f, a + [x], b);
    FlattenAppend(f, a, [x]);
    FlattenAppend(f, a, b);
    assert [x][..0] == [];
  }

  /** A tag value whose search is empty can be dropped: it does not even create the service node. */
  lemma EmptySearchIgnored(md5: Md5, cfg: Config, re: Matcher, b: Backend, r: Result<Agg, string>, tagValues: seq<string>, i: nat)
    requires r.Success? ==> Wf(r.value)
    requires i < |tagValues| && ApiCall(b.search(tagValues[i])).None?
    ensures FoldTags(md5, cfg, re, b, r, tagValues[..i] + tagValues[i + 1..]) == FoldTags(md5, cfg, re, b, r, tagValues)
  {
    var before, after := tagValues[..i], tagValues[i + 1..];
    assert tagValues == before + [tagValues[i]] + after;
    FoldTagsAppend(md5, cfg, re, b, r, before, [tagValues[i]]);
    FoldTagsAppend(md5, cfg, re, b, r, before + [tagValues[i]], after);
    FoldTagsAppend(md5, cfg, re, b, r, before, after);
    assert [tagValues[i]][..0] == [];
  }

  // ---------------------------------------------------------------------------
  // The service node as a parent (collect.py, use_tag_as_node)

  /** `span_to_node` maps the service id to a set holding the service node itself. */
  predicate ServiceSelfLinked(md5: Md5, cfg: Config, stn: map<string, set<string>>)
  {
    ServiceId(md5, cfg) in stn && ServiceId(md5, cfg) in stn[ServiceId(md5, cfg)]
  }

  /** No span among `xs` has the service id as its span id (which would overwrite its `span_to_node` entry). */
  predicate NoServiceSpanId(md5: Md5, cfg: Config, xs: seq<Item>)
  {
    forall i :: 0 <= i < |xs| ==> xs[i].span.spanId != ServiceId(md5, cfg)
  }

  /** A span whose id is not the service id leaves the service id's `span_to_node` entry alone. */
  lemma ItemStepSelfLinked(md5: Md5, cfg: Config, st: Agg, it: Item)
    requires Wf(st) && Ready(md5, cfg, st)
    requires ItemStep(md5, cfg, st, it).Success?
    requires it.span.spanId != ServiceId(md5, cfg) && ServiceSelfLinked(md5, cfg, st.spanToNode)
    ensures ServiceSelfLinked(md5, cfg, ItemStep(md5, cfg, st, it).value.spanToNode)
  {
    if it.span.name.Some? {
      ItemStepSpans(md5, cfg, st, it);
    }
  }

  /** A named span's step writes `span_to_node` as `RecordSpan` says. */
  lemma ItemStepSpans(md5: Md5, cfg: Config, st: Agg, it: Item)
    requires Wf(st) && Ready(md5, cfg, st)
    requires ItemStep(md5, cfg, st, it).Success? && it.span.name.Some?
    ensures ItemStep(md5, cfg, st, it).value.spanToNode
         == RecordSpan(st.spanToNode, it.span.spanId, NodeId(md5, it.service, it.span.name.value)).value
  {
    var name := it.span.name.value;
    var stn := RecordSpan(st.spanToNode, it.span.spanId, NodeId(md5, it.service, name)).value;
    assert ItemStep(md5, cfg, st, it) == Success(SpanUpdate(md5, cfg, st, it.service, name, it.span, stn));
  }

  /** Splitting a run of spans none of which has the service id as its span id. */
  lemma NoServiceSpanIdSplit(md5: Md5, cfg: Config, a: seq<Item>, c: seq<Item>)
    requires NoServiceSpanId(md5, cfg, a + c)
    ensures NoServiceSpanId(md5, cfg, a) && NoServiceSpanId(md5, cfg, c)
  {
    forall i | 0 <= i < |a| ensures a[i].span.spanId != ServiceId(md5, cfg) {
      assert a[i] == (a + c)[i];
    }
    forall i | 0 <= i < |c| ensures c[i].span.spanId != ServiceId(md5, cfg) {
      assert c[i] == (a + c)[|a| + i];
    }
  }

  lemma NoServiceSpanIdPrefix(md5: Md5, cfg: Config, xs: seq<Item>, n: nat)
    requires NoServiceSpanId(md5, cfg, xs) && n <= |xs|
    ensures NoServiceSpanId(md5, cfg, xs[..n])
  {
    forall i | 0 <= i < n ensures xs[..n][i].span.spanId != ServiceId(md5, cfg) {
      assert xs[..n][i] == xs[i];
    }
  }

  /** ... and so does a walk over such spans. */
  lemma {:induction false} FoldItemsSelfLinked(md5: Md5, cfg: Config, st: Agg, xs: seq<Item>)
    requires Wf(st) && Ready(md5, cfg, st)
    requires FoldItems(md5, cfg, Success(st), xs).Success?
    requires NoServiceSpanId(md5, cfg, xs) && ServiceSelfLinked(md5, cfg, st.spanToNode)
    ensures ServiceSelfLinked(md5, cfg, FoldItems(md5, cfg, Success(st), xs).value.spanToNode)
    decreases |xs|
  {
    if xs != [] {
      var n := |xs| - 1;
      var p := FoldItems(md5, cfg, Success(st), xs[..n]);
      NoServiceSpanIdPrefix(md5, cfg, xs, n);
      FoldItemsSelfLinked(md5, cfg, st, xs[..n]);
      ItemStepSelfLinked(md5, cfg, p.value, xs[n]);
    }
  }

  /** With `use_tag_as_node`, once the service node exists its id maps to it in `span_to_node`, step by step. */
  lemma TagStepSelfLinked(md5: Md5, cfg: Config, re: Matcher, b: Backend, st: Agg, tv: string)
    requires Wf(st) && cfg.useTagAsNode
    requires TagStep(md5, cfg, re, b, Success(st), tv).Success?
    requires NoServiceSpanId(md5, cfg, TagContribution(cfg, re, b, tv))
    requires ServiceId(md5, cfg) in st.nodes.vals ==> ServiceSelfLinked(md5, cfg, st.spanToNode)
    ensures var r := TagStep(md5, cfg, re, b, Success(st), tv).value;
      ServiceId(md5, cfg) in r.nodes.vals ==> ServiceSelfLinked(md5, cfg, r.spanToNode)
  {
    if Accepted(cfg, re, b, tv) {
      var s := AddServiceNode(md5, cfg, st, tv);
      FoldItemsSelfLinked(md5, cfg, s, TagContribution(cfg, re, b, tv));
    }
  }

  /** ... over the whole tag-value loop. */
  lemma {:induction false} FoldTagsSelfLinked(md5: Md5, cfg: Config, re: Matcher, b: Backend, st: Agg, tagValues: seq<string>)
    requires Wf(st) && cfg.useTagAsNode
    requires FoldTags(md5, cfg, re, b, Success(st), tagValues).Success?
    requires NoServiceSpanId(md5, cfg, TagItems(cfg, re, b, tagValues))
    requires ServiceId(md5, cfg) in st.nodes.vals ==> ServiceSelfLinked(md5, cfg, st.spanToNode)
    ensures var r := FoldTags(md5, cfg, re, b, Success(st), tagValues).value;
      ServiceId(md5, cfg) in r.nodes.vals ==> ServiceSelfLinked(md5, cfg, r.spanToNode)
    decreases |tagValues|
  {
    if tagValues != [] {
      var n := |tagValues| - 1;
      var tv := tagValues[n];
      var p := FoldTags(md5, cfg, re, b, Success(st), tagValues[..n]);
      var before, mine := TagItems(cfg, re, b, tagValues[..n]), TagContribution(cfg, re, b, tv);
      assert TagItems(cfg, re, b, tagValues) == before + mine;
      NoServiceSpanIdSplit(md5, cfg, before, mine);
      FoldTagsSelfLinked(md5, cfg, re, b, st, tagValues[..n]);
      assert FoldTags(md5, cfg, re, b, Success(st), tagValues) == TagStep(md5, cfg, re, b, p, tv);
      TagStepSelfLinked(md5, cfg, re, b, p.value, tv);
    }
  }

  /** The parents of `ParentsOf` include those of each span that maps to `k`. */
  lemma {:induction false} ParentsOfHas(md5: Md5, cfg: Config, xs: seq<Item>, k: string, i: nat)
    requires i < |xs| && MapsTo(md5, xs[i], k)
    ensures ParentOf(md5, cfg, xs[i].span) <= ParentsOf(md5, cfg, xs, k)
    decreases |xs|
  {
    var n := |xs| - 1;
    if i < n {
      ParentsOfHas(md5, cfg, xs[..n], k, i);
      assert xs[..n][i] == xs[i];
    }
  }

  /** One tag value records the parents its spans record (creating the service node records none). */
  lemma TagStepParents(md5: Md5, cfg: Config, re: Matcher, b: Backend, st: Agg, tv: string, k: string)
    requires Wf(st)
    requires TagStep(md5, cfg, re, b, Success(st), tv).Success?
    ensures ParentsIn(TagStep(md5, cfg, re, b, Success(st), tv).value.nodeSpanParent, k)
         == ParentsIn(st.nodeSpanParent, k) + ParentsOf(md5, cfg, TagContribution(cfg, re, b, tv), k)
  {
    if Accepted(cfg, re, b, tv) {
      var s := if cfg.useTagAsNode then AddServiceNode(md5, cfg, st, tv) else st;
      assert s.nodeSpanParent == st.nodeSpanParent;
      FoldItemsParents(md5, cfg, s, TagContribution(cfg, re, b, tv), k);
    }
  }

  /** `ParentsOf` over two runs of spans. */
  lemma {:induction false} ParentsOfAppend(md5: Md5, cfg: Config, a: seq<Item>, c: seq<Item>, k: string)
    ensures ParentsOf(md5, cfg, a + c, k) == ParentsOf(md5, cfg, a, k) + ParentsOf(md5, cfg, c, k)
    decreases |c|
  {
    if c == [] {
      assert a + c == a;
    } else {
      var n := |c| - 1;
      assert (a + c)[..|a + c| - 1] == a + c[..n];
      ParentsOfAppend(md5, cfg, a, c[..n], k);
    }
  }

  /** `node_span_parent` over the whole tag-value loop: node `k` gets exactly the parents its spans record. */
  lemma {:induction false} FoldTagsParents(md5: Md5, cfg: Config, re: Matcher, b: Backend, st: Agg, tagValues: seq<string>, k: string)
    requires Wf(st)
    requires FoldTags(md5, cfg, re, b, Success(st), tagValues).Success?
    ensures ParentsIn(FoldTags(md5, cfg, re, b, Success(st), tagValues).value.nodeSpanParent, k)
         == ParentsIn(st.nodeSpanParent, k) + ParentsOf(md5, cfg, TagItems(cfg, re, b, tagValues), k)
    decreases |tagValues|
  {
    if tagValues != [] {
      var n := |tagValues| - 1;
      var tv := tagValues[n];
      var p := FoldTags(md5, cfg, re, b, Success(st), tagValues[..n]);
      FoldTagsParents(md5, cfg, re, b, st, tagValues[..n], k);
      assert FoldTags(md5, cfg, re, b, Success(st), tagValues) == TagStep(md5, cfg, re, b, p, tv);
      TagStepParentsAfter(md5, cfg, re, b, ParentsIn(st.nodeSpanParent, k), p.value, tagValues, k);
    }
  }

  /** The last tag value's step of `FoldTagsParents`, from the parents `base` recorded before the walk. */
  lemma TagStepParentsAfter(md5: Md5, cfg: Config, re: Matcher, b: Backend, base: set<string>, p: Agg, tagValues: seq<string>, k: string)
    requires Wf(p) && tagValues != []
    requires TagStep(md5, cfg, re, b, Success(p), tagValues[|tagValues| - 1]).Success?
    requires ParentsIn(p.nodeSpanParent, k) == base + ParentsOf(md5, cfg, TagItems(cfg, re, b, tagValues[..|tagValues| - 1]), k)
    ensures ParentsIn(TagStep(md5, cfg, re, b, Success(p), tagValues[|tagValues| - 1]).value.nodeSpanParent, k)
         == base + ParentsOf(md5, cfg, TagItems(cfg, re, b, tagValues), k)
  {
    var n := |tagValues| - 1;
    var before, mine := TagItems(cfg, re, b, tagValues[..n]), TagContribution(cfg, re, b, tagValues[n]);
    assert TagItems(cfg, re, b, tagValues) == before + mine;
    ParentsOfAppend(md5, cfg, before, mine, k);
    TagStepParents(md5, cfg, re, b, p, tagValues[n], k);
  }

  /** Spans are only reached through an accepted tag value. */
  lemma {:induction false} ItemsNeedAccepted(cfg: Config, re: Matcher, b: Backend, tagValues: seq<string>)
    requires TagItems(cfg, re, b, tagValues) != []
    ensures AnyAccepted(cfg, re, b, tagValues)
    decreases |tagValues|
  {
    var n := |tagValues| - 1;
    var tv := tagValues[n];
    assert TagItems(cfg, re, b, tagValues) == TagItems(cfg, re, b, tagValues[..n]) + TagContribution(cfg, re, b, tv);
    if !Accepted(cfg, re, b, tv) {
      ItemsNeedAccepted(cfg, re, b, tagValues[..n]);
    }
  }

  /**
   * With `use_tag_as_node`, a named span without `parentSpanId` records the
   * service node as its node's parent, and the service id maps to the service
   * node in `span_to_node`, as long as no span's own id is the service id.
   */
  lemma ServiceParent(md5: Md5, cfg: Config, re: Matcher, b: Backend, tagValues: seq<string>, i: nat)
    requires cfg.useTagAsNode
    requires FoldTags(md5, cfg, re, b, Success(Init()), tagValues).Success?
    requires NoServiceSpanId(md5, cfg, TagItems(cfg, re, b, tagValues))
    requires i < |TagItems(cfg, re, b, tagValues)|
    requires TagItems(cfg, re, b, tagValues)[i].span.name.Some? && TagItems(cfg, re, b, tagValues)[i].span.parentSpanId.None?
    ensures var st := FoldTags(md5, cfg, re, b, Success(Init()), tagValues).value;
      var it := TagItems(cfg, re, b, tagValues)[i];
      && ServiceId(md5, cfg) in ParentsIn(st.nodeSpanParent, NodeId(md5, it.service, it.span.name.value))
      && ServiceSelfLinked(md5, cfg, st.spanToNode)
  {
    var items := TagItems(cfg, re, b, tagValues);
    var k := NodeId(md5, items[i].service, items[i].span.name.value);
    FoldTagsParents(md5, cfg, re, b, Init(), tagValues, k);
    ParentsOfHas(md5, cfg, items, k, i);
    ItemsNeedAccepted(cfg, re, b, tagValues);
    FoldTagsNodes(md5, cfg, re, b, Init(), tagValues, ServiceId(md5, cfg));
    FoldTagsSelfLinked(md5, cfg, re, b, Init(), tagValues);
  }
}
