/**
 * `NodeGraphAPI`: pushing the graph to the node-graph provider. The graph is
 * cleared, then each node and each edge is looked up with a GET and created
 * with a POST (on 404) or updated with a PUT (on 200). The first request that
 * raises ends both loops; its exception is logged and swallowed.
 */
module Sync {
  import opened Wrappers
  import opened PyDict
  import opened Graph
  import opened Serialise

  /** The provider's base URL (`RestConnection.url`) and the graph name. */
  datatype Provider = Provider(url: string, graph: string)

  /** One HTTP request; a POST carries the dict `json.dumps` serialises, a PUT its query params. Headers are left out. */
  datatype Request =
    | Get(url: string)
    | Post(url: string, data: Option<Dict<Field, string>>)
    | Put(url: string, params: Dict<Field, string>)

  /** What a request gets: an exception from `requests`, or a response with a status code. */
  datatype Answer = Refused | Status(code: int)

  /** The provider's behaviour, as the answer each request gets. */
  type Net = Request -> Answer

  function DeleteUrl(p: Provider): string { p.url + "/api/controller/" + p.graph + "/delete-all" }
  function NodesUrl(p: Provider): string { p.url + "/api/nodes/" + p.graph }
  function NodeUrl(p: Provider, id: string): string { NodesUrl(p) + "/" + id }
  function EdgesUrl(p: Provider): string { p.url + "/api/edges/" + p.graph }
  function EdgeUrl(p: Provider, source: string, target: string): string { EdgesUrl(p) + "/" + source + "/" + target }

  /** `delete_graph`: one POST without a body; an exception it raises is caught and logged. */
  function DeleteGraph(p: Provider): Request
  {
    Post(DeleteUrl(p), None)
  }

  /** The requests sent so far, and whether one of them raised. */
  datatype Session = Session(sent: seq<Request>, stopped: bool)

  /** Send `req`; if it raises, the session stops. */
  function Send(net: Net, s: Session, req: Request): Session
  {
    Session(s.sent + [req], net(req).Refused?)
  }

  /** One pass of the node loop. */
  function NodeStep(net: Net, p: Provider, repr: FloatRepr, s: Session, n: Node): Session
  {
    if s.stopped then s
    else
      var get := Get(NodeUrl(p, n.id));
      var s' := Send(net, s, get);
      if s'.stopped then s'
      else if net(get).code == 404 then Send(net, s', Post(NodesUrl(p), Some(NodeParamsWithId(n, repr))))
      else if net(get).code == 200 then Send(net, s', Put(NodeUrl(p, n.id), NodeParams(n, repr)))
      else s'
  }

  /**
   * The params the edge PUT sends: those of the node the node loop left in
   * `node` (`None`: the loop never ran, and reading `node` raises
   * `UnboundLocalError`), or the edge's own.
   */
  datatype EdgePut = OfLastNode(last: Option<Node>) | OfEdge

  function EdgePutParams(put: EdgePut, e: Edge, repr: FloatRepr): Option<Dict<Field, string>>
  {
    match put
    case OfLastNode(last) => if last.Some? then Some(NodeParams(last.value, repr)) else None
    case OfEdge => Some(EdgeParams(e, repr))
  }

  /** One pass of the edge loop. */
  function EdgeStep(net: Net, p: Provider, repr: FloatRepr, put: EdgePut, s: Session, e: Edge): Session
  {
    if s.stopped then s
    else
      var get := Get(EdgeUrl(p, e.source, e.target));
      var s' := Send(net, s, get);
      if s'.stopped then s'
      else if net(get).code == 404 then Send(net, s', Post(EdgesUrl(p), Some(EdgeParams(e, repr))))
      else if net(get).code == 200 then EdgePutStep(net, p, repr, put, s', e)
      else s'
  }

  /** The PUT of an edge the provider already has; computing its params may raise. */
  function EdgePutStep(net: Net, p: Provider, repr: FloatRepr, put: EdgePut, s: Session, e: Edge): Session
  {
    match EdgePutParams(put, e, repr)
    case None => Session(s.sent, true)
    case Some(params) => Send(net, s, Put(EdgeUrl(p, e.source, e.target), params))
  }

  function NodesFold(net: Net, p: Provider, repr: FloatRepr, s: Session, nodes: seq<Node>): Session
    decreases |nodes|
  {
    if nodes == [] then s
    else NodeStep(net, p, repr, NodesFold(net, p, repr, s, nodes[..|nodes| - 1]), nodes[|nodes| - 1])
  }

  function EdgesFold(net: Net, p: Provider, repr: FloatRepr, put: EdgePut, s: Session, edges: seq<Edge>): Session
    decreases |edges|
  {
    if edges == [] then s
    else EdgeStep(net, p, repr, put, EdgesFold(net, p, repr, put, s, edges[..|edges| - 1]), edges[|edges| - 1])
  }

  /** `update_nodes` with the given edge PUT: clear the graph, then the node loop, then the edge loop. */
  function Update(net: Net, p: Provider, repr: FloatRepr, put: EdgePut, nodes: seq<Node>, edges: seq<Edge>): Session
  {
    EdgesFold(net, p, repr, put, NodesFold(net, p, repr, Session([DeleteGraph(p)], false), nodes), edges)
  }

  /** The edge PUT as the code has it: the last node's `to_params()`. */
  function AsWritten(nodes: seq<Node>): EdgePut
  {
    OfLastNode(if nodes == [] then None else Some(nodes[|nodes| - 1]))
  }

  // ---------------------------------------------------------------------------
  // What the loops keep

  /** A stopped session sends nothing more. */
  lemma {:induction false} NodesFoldStopped(net: Net, p: Provider, repr: FloatRepr, s: Session, nodes: seq<Node>)
    requires s.stopped
    ensures NodesFold(net, p, repr, s, nodes) == s
    decreases |nodes|
  {
    if nodes != [] {
      NodesFoldStopped(net, p, repr, s, nodes[..|nodes| - 1]);
    }
  }

  lemma {:induction false} EdgesFoldStopped(net: Net, p: Provider, repr: FloatRepr, put: EdgePut, s: Session, edges: seq<Edge>)
    requires s.stopped
    ensures EdgesFold(net, p, repr, put, s, edges) == s
    decreases |edges|
  {
    if edges != [] {
      EdgesFoldStopped(net, p, repr, put, s, edges[..|edges| - 1]);
    }
  }

  /** The loops only ever add requests after those already sent. */
  lemma {:induction false} NodesFoldExtends(net: Net, p: Provider, repr: FloatRepr, s: Session, nodes: seq<Node>)
    ensures s.sent <= NodesFold(net, p, repr, s, nodes).sent
    decreases |nodes|
  {
    if nodes != [] {
      NodesFoldExtends(net, p, repr, s, nodes[..|nodes| - 1]);
    }
  }

  lemma {:induction false} EdgesFoldExtends(net: Net, p: Provider, repr: FloatRepr, put: EdgePut, s: Session, edges: seq<Edge>)
    ensures s.sent <= EdgesFold(net, p, repr, put, s, edges).sent
    decreases |edges|
  {
    if edges != [] {
      EdgesFoldExtends(net, p, repr, put, s, edges[..|edges| - 1]);
    }
  }

  /** The provider is cleared first, whatever follows. */
  lemma DeleteFirst(net: Net, p: Provider, repr: FloatRepr, put: EdgePut, nodes: seq<Node>, edges: seq<Edge>)
    ensures |Update(net, p, repr, put, nodes, edges).sent| >= 1
    ensures Update(net, p, repr, put, nodes, edges).sent[0] == Post(DeleteUrl(p), None)
  {
    var s0 := Session([DeleteGraph(p)], false);
    NodesFoldExtends(net, p, repr, s0, nodes);
    EdgesFoldExtends(net, p, repr, put, NodesFold(net, p, repr, s0, nodes), edges);
  }

  /**
   * Every request after the delete but the last got a response, and the
   * session has stopped exactly when the last one raised.
   */
  ghost predicate StopsAtRefusal(net: Net, s: Session)
  {
    && |s.sent| >= 1
    && (forall i :: 1 <= i < |s.sent| - 1 ==> net(s.sent[i]).Status?)
    && (s.stopped <==> |s.sent| > 1 && net(s.sent[|s.sent| - 1]).Refused?)
  }

  /** An edge PUT whose params can be computed. */
  predicate PutDefined(put: EdgePut)
  {
    put.OfLastNode? ==> put.last.Some?
  }

  lemma SendKeeps(net: Net, s: Session, req: Request)
    requires StopsAtRefusal(net, s) && !s.stopped
    ensures StopsAtRefusal(net, Send(net, s, req))
  {
  }

  lemma {:induction false} NodesFoldKeeps(net: Net, p: Provider, repr: FloatRepr, s: Session, nodes: seq<Node>)
    requires StopsAtRefusal(net, s)
    ensures StopsAtRefusal(net, NodesFold(net, p, repr, s, nodes))
    decreases |nodes|
  {
    if nodes != [] {
      var n := nodes[|nodes| - 1];
      var s1 := NodesFold(net, p, repr, s, nodes[..|nodes| - 1]);
      NodesFoldKeeps(net, p, repr, s, nodes[..|nodes| - 1]);
      if !s1.stopped {
        var get := Get(NodeUrl(p, n.id));
        SendKeeps(net, s1, get);
        var s2 := Send(net, s1, get);
        if !s2.stopped {
          SendKeeps(net, s2, Post(NodesUrl(p), Some(NodeParamsWithId(n, repr))));
          SendKeeps(net, s2, Put(NodeUrl(p, n.id), NodeParams(n, repr)));
        }
      }
    }
  }

  lemma {:induction false} EdgesFoldKeeps(net: Net, p: Provider, repr: FloatRepr, put: EdgePut, s: Session, edges: seq<Edge>)
    requires StopsAtRefusal(net, s) && PutDefined(put)
    ensures StopsAtRefusal(net, EdgesFold(net, p, repr, put, s, edges))
    decreases |edges|
  {
    if edges != [] {
      var e := edges[|edges| - 1];
      var s1 := EdgesFold(net, p, repr, put, s, edges[..|edges| - 1]);
      EdgesFoldKeeps(net, p, repr, put, s, edges[..|edges| - 1]);
      if !s1.stopped {
        var get := Get(EdgeUrl(p, e.source, e.target));
        SendKeeps(net, s1, get);
        var s2 := Send(net, s1, get);
        if !s2.stopped {
          SendKeeps(net, s2, Post(EdgesUrl(p), Some(EdgeParams(e, repr))));
          SendKeeps(net, s2, Put(EdgeUrl(p, e.source, e.target), EdgePutParams(put, e, repr).value));
        }
      }
    }
  }

  /**
   * With the edge's own params, `update_nodes` stops at its first request
   * that raises and at nothing else: every request after the delete but the
   * last got a response, and the run stopped exactly when the last one raised.
   */
  lemma UpdateStopsAtRefusal(net: Net, p: Provider, repr: FloatRepr, nodes: seq<Node>, edges: seq<Edge>)
    ensures StopsAtRefusal(net, Update(net, p, repr, OfEdge, nodes, edges))
  {
    var s0 := Session([DeleteGraph(p)], false);
    NodesFoldKeeps(net, p, repr, s0, nodes);
    EdgesFoldKeeps(net, p, repr, OfEdge, NodesFold(net, p, repr, s0, nodes), edges);
  }

  /** ... and so does the code as written, as long as there is a last node to take the PUT's params from. */
  lemma UpdateAsWrittenStopsAtRefusal(net: Net, p: Provider, repr: FloatRepr, nodes: seq<Node>, edges: seq<Edge>)
    requires nodes != []
    ensures StopsAtRefusal(net, Update(net, p, repr, AsWritten(nodes), nodes, edges))
  {
    var s0 := Session([DeleteGraph(p)], false);
    NodesFoldKeeps(net, p, repr, s0, nodes);
    EdgesFoldKeeps(net, p, repr, AsWritten(nodes), NodesFold(net, p, repr, s0, nodes), edges);
  }

  // ---------------------------------------------------------------------------
  // What gets sent

  /** A provider that answers every request (none raises). */
  ghost predicate Reliable(net: Net)
  {
    forall r :: net(r).Status?
  }

  /** Node `n` was looked up, then created if the provider answered 404, updated if it answered 200. */
  ghost predicate NodeSynced(net: Net, p: Provider, repr: FloatRepr, n: Node, sent: seq<Request>)
  {
    var get := Get(NodeUrl(p, n.id));
    && get in sent
    && (net(get) == Status(404) ==> Post(NodesUrl(p), Some(NodeParamsWithId(n, repr))) in sent)
    && (net(get) == Status(200) ==> Put(NodeUrl(p, n.id), NodeParams(n, repr)) in sent)
  }

  /** Edge `e` was looked up, then created on 404 and updated on 200, with its own params. */
  ghost predicate EdgeSynced(net: Net, p: Provider, repr: FloatRepr, e: Edge, sent: seq<Request>)
  {
    var get := Get(EdgeUrl(p, e.source, e.target));
    && get in sent
    && (net(get) == Status(404) ==> Post(EdgesUrl(p), Some(EdgeParams(e, repr))) in sent)
    && (net(get) == Status(200) ==> Put(EdgeUrl(p, e.source, e.target), EdgeParams(e, repr)) in sent)
  }

  /** Requests sent stay sent: a later session's history extends an earlier one. */
  lemma SentStays(a: seq<Request>, b: seq<Request>, r: Request)
    requires a <= b && r in a
    ensures r in b
  {
    var i :| 0 <= i < |a| && a[i] == r;
    assert b[i] == r;
  }

  lemma EdgeSyncedStays(net: Net, p: Provider, repr: FloatRepr, e: Edge, a: seq<Request>, b: seq<Request>)
    requires a <= b && EdgeSynced(net, p, repr, e, a)
    ensures EdgeSynced(net, p, repr, e, b)
  {
    var get := Get(EdgeUrl(p, e.source, e.target));
    SentStays(a, b, get);
    if net(get) == Status(404) {
      SentStays(a, b, Post(EdgesUrl(p), Some(EdgeParams(e, repr))));
    }
    if net(get) == Status(200) {
      SentStays(a, b, Put(EdgeUrl(p, e.source, e.target), EdgeParams(e, repr)));
    }
  }

  lemma NodeSyncedStays(net: Net, p: Provider, repr: FloatRepr, n: Node, a: seq<Request>, b: seq<Request>)
    requires a <= b && NodeSynced(net, p, repr, n, a)
    ensures NodeSynced(net, p, repr, n, b)
  {
    var get := Get(NodeUrl(p, n.id));
    SentStays(a, b, get);
    if net(get) == Status(404) {
      SentStays(a, b, Post(NodesUrl(p), Some(NodeParamsWithId(n, repr))));
    }
    if net(get) == Status(200) {
      SentStays(a, b, Put(NodeUrl(p, n.id), NodeParams(n, repr)));
    }
  }

  lemma NodeStepSyncs(net: Net, p: Provider, repr: FloatRepr, s: Session, n: Node)
    requires Reliable(net) && !s.stopped
    ensures !NodeStep(net, p, repr, s, n).stopped && s.sent <= NodeStep(net, p, repr, s, n).sent
    ensures NodeSynced(net, p, repr, n, NodeStep(net, p, repr, s, n).sent)
  {
    assert net(Get(NodeUrl(p, n.id))).Status?;
    assert net(Post(NodesUrl(p), Some(NodeParamsWithId(n, repr)))).Status?;
    assert net(Put(NodeUrl(p, n.id), NodeParams(n, repr))).Status?;
  }

  lemma EdgeStepSyncs(net: Net, p: Provider, repr: FloatRepr, s: Session, e: Edge)
    requires Reliable(net) && !s.stopped
    ensures !EdgeStep(net, p, repr, OfEdge, s, e).stopped && s.sent <= EdgeStep(net, p, repr, OfEdge, s, e).sent
    ensures EdgeSynced(net, p, repr, e, EdgeStep(net, p, repr, OfEdge, s, e).sent)
  {
    assert net(Get(EdgeUrl(p, e.source, e.target))).Status?;
    assert net(Post(EdgesUrl(p), Some(EdgeParams(e, repr)))).Status?;
    assert net(Put(EdgeUrl(p, e.source, e.target), EdgeParams(e, repr))).Status?;
  }

  lemma {:induction false} NodesCovered(net: Net, p: Provider, repr: FloatRepr, s: Session, nodes: seq<Node>)
    requires Reliable(net) && !s.stopped
    ensures !NodesFold(net, p, repr, s, nodes).stopped
    ensures forall i :: 0 <= i < |nodes| ==> NodeSynced(net, p, repr, nodes[i], NodesFold(net, p, repr, s, nodes).sent)
    decreases |nodes|
  {
    if nodes != [] {
      var m := |nodes| - 1;
      var s1 := NodesFold(net, p, repr, s, nodes[..m]);
      NodesCovered(net, p, repr, s, nodes[..m]);
      var s2 := NodeStep(net, p, repr, s1, nodes[m]);
      assert NodesFold(net, p, repr, s, nodes) == s2;
      NodeStepSyncs(net, p, repr, s1, nodes[m]);
      forall i | 0 <= i < |nodes|
        ensures NodeSynced(net, p, repr, nodes[i], s2.sent)
      {
        NodeSyncedAt(net, p, repr, nodes, nodes[..m], s1.sent, s2.sent, i);
      }
    }
  }

  lemma {:induction false} EdgesCovered(net: Net, p: Provider, repr: FloatRepr, s: Session, edges: seq<Edge>)
    requires Reliable(net) && !s.stopped
    ensures !EdgesFold(net, p, repr, OfEdge, s, edges).stopped
    ensures forall i :: 0 <= i < |edges| ==> EdgeSynced(net, p, repr, edges[i], EdgesFold(net, p, repr, OfEdge, s, edges).sent)
    decreases |edges|
  {
    if edges != [] {
      var m := |edges| - 1;
      var s1 := EdgesFold(net, p, repr, OfEdge, s, edges[..m]);
      EdgesCovered(net, p, repr, s, edges[..m]);
      var s2 := EdgeStep(net, p, repr, OfEdge, s1, edges[m]);
      assert EdgesFold(net, p, repr, OfEdge, s, edges) == s2;
      EdgeStepSyncs(net, p, repr, s1, edges[m]);
      forall i | 0 <= i < |edges|
        ensures EdgeSynced(net, p, repr, edges[i], s2.sent)
      {
        EdgeSyncedAt(net, p, repr, edges, edges[..m], s1.sent, s2.sent, i);
      }
    }
  }

  /** Edge `i` is synced in `b` when the edges before the last were synced in the earlier `a` and the last is synced in `b`. */
  lemma EdgeSyncedAt(net: Net, p: Provider, repr: FloatRepr, edges: seq<Edge>, pre: seq<Edge>, a: seq<Request>, b: seq<Request>, i: nat)
    requires edges != [] && pre == edges[..|edges| - 1] && a <= b && i < |edges|
    requires forall j :: 0 <= j < |pre| ==> EdgeSynced(net, p, repr, pre[j], a)
    requires EdgeSynced(net, p, repr, edges[|edges| - 1], b)
    ensures EdgeSynced(net, p, repr, edges[i], b)
  {
    if i < |pre| {
      assert pre[i] == edges[i];
      EdgeSyncedStays(net, p, repr, edges[i], a, b);
    }
  }

  lemma NodeSyncedAt(net: Net, p: Provider, repr: FloatRepr, nodes: seq<Node>, pre: seq<Node>, a: seq<Request>, b: seq<Request>, i: nat)
    requires nodes != [] && pre == nodes[..|nodes| - 1] && a <= b && i < |nodes|
    requires forall j :: 0 <= j < |pre| ==> NodeSynced(net, p, repr, pre[j], a)
    requires NodeSynced(net, p, repr, nodes[|nodes| - 1], b)
    ensures NodeSynced(net, p, repr, nodes[i], b)
  {
    if i < |pre| {
      assert pre[i] == nodes[i];
      NodeSyncedStays(net, p, repr, nodes[i], a, b);
    }
  }

  /**
   * Against a provider that always answers, `update_nodes` (with the edge's
   * own params) runs to the end, and every node and every edge is looked up
   * and then created or updated as its status says.
   */
  lemma UpdateCovers(net: Net, p: Provider, repr: FloatRepr, nodes: seq<Node>, edges: seq<Edge>)
    requires Reliable(net)
    ensures !Update(net, p, repr, OfEdge, nodes, edges).stopped
    ensures forall i :: 0 <= i < |nodes| ==> NodeSynced(net, p, repr, nodes[i], Update(net, p, repr, OfEdge, nodes, edges).sent)
    ensures forall i :: 0 <= i < |edges| ==> EdgeSynced(net, p, repr, edges[i], Update(net, p, repr, OfEdge, nodes, edges).sent)
  {
    var s0 := Session([DeleteGraph(p)], false);
    var s1 := NodesFold(net, p, repr, s0, nodes);
    NodesCovered(net, p, repr, s0, nodes);
    EdgesCovered(net, p, repr, s1, edges);
    EdgesFoldExtends(net, p, repr, OfEdge, s1, edges);
  }

  /** The three requests node `n` can cause. */
  function NodeRequests(p: Provider, repr: FloatRepr, n: Node): set<Request>
  {
    {Get(NodeUrl(p, n.id)), Post(NodesUrl(p), Some(NodeParamsWithId(n, repr))), Put(NodeUrl(p, n.id), NodeParams(n, repr))}
  }

  /** The three requests edge `e` can cause, with its own params. */
  function EdgeRequests(p: Provider, repr: FloatRepr, e: Edge): set<Request>
  {
    {Get(EdgeUrl(p, e.source, e.target)), Post(EdgesUrl(p), Some(EdgeParams(e, repr))), Put(EdgeUrl(p, e.source, e.target), EdgeParams(e, repr))}
  }

  ghost predicate ForSomeNode(p: Provider, repr: FloatRepr, nodes: seq<Node>, r: Request)
  {
    exists i :: 0 <= i < |nodes| && r in NodeRequests(p, repr, nodes[i])
  }

  ghost predicate ForSomeEdge(p: Provider, repr: FloatRepr, edges: seq<Edge>, r: Request)
  {
    exists i :: 0 <= i < |edges| && r in EdgeRequests(p, repr, edges[i])
  }

  lemma {:induction false} NodesFoldSends(net: Net, p: Provider, repr: FloatRepr, s: Session, nodes: seq<Node>)
    ensures forall r :: r in NodesFold(net, p, repr, s, nodes).sent ==> r in s.sent || ForSomeNode(p, repr, nodes, r)
    decreases |nodes|
  {
    if nodes != [] {
      var m := |nodes| - 1;
      NodesFoldSends(net, p, repr, s, nodes[..m]);
      var s1 := NodesFold(net, p, repr, s, nodes[..m]);
      var s2 := NodeStep(net, p, repr, s1, nodes[m]);
      assert NodesFold(net, p, repr, s, nodes) == s2;
      NodeStepSends(net, p, repr, s1, nodes[m]);
      forall r | r in s2.sent
        ensures r in s.sent || ForSomeNode(p, repr, nodes, r)
      {
        if r in s1.sent {
          if !(r in s.sent) {
            var i :| 0 <= i < m && r in NodeRequests(p, repr, nodes[..m][i]);
            assert nodes[..m][i] == nodes[i];
          }
        }
      }
    }
  }

  /** One pass of the node loop sends only requests about its own node. */
  lemma NodeStepSends(net: Net, p: Provider, repr: FloatRepr, s: Session, n: Node)
    ensures forall r :: r in NodeStep(net, p, repr, s, n).sent ==> r in s.sent || r in NodeRequests(p, repr, n)
  {
  }

  lemma {:induction false} EdgesFoldSends(net: Net, p: Provider, repr: FloatRepr, s: Session, edges: seq<Edge>)
    ensures forall r :: r in EdgesFold(net, p, repr, OfEdge, s, edges).sent ==> r in s.sent || ForSomeEdge(p, repr, edges, r)
    decreases |edges|
  {
    if edges != [] {
      var m := |edges| - 1;
      EdgesFoldSends(net, p, repr, s, edges[..m]);
      var s1 := EdgesFold(net, p, repr, OfEdge, s, edges[..m]);
      var s2 := EdgeStep(net, p, repr, OfEdge, s1, edges[m]);
      assert EdgesFold(net, p, repr, OfEdge, s, edges) == s2;
      EdgeStepSends(net, p, repr, s1, edges[m]);
      forall r | r in s2.sent
        ensures r in s.sent || ForSomeEdge(p, repr, edges, r)
      {
        if r in s1.sent {
          if !(r in s.sent) {
            var i :| 0 <= i < m && r in EdgeRequests(p, repr, edges[..m][i]);
            assert edges[..m][i] == edges[i];
          }
        }
      }
    }
  }

  /** One pass of the edge loop sends only requests about its own edge. */
  lemma EdgeStepSends(net: Net, p: Provider, repr: FloatRepr, s: Session, e: Edge)
    ensures forall r :: r in EdgeStep(net, p, repr, OfEdge, s, e).sent ==> r in s.sent || r in EdgeRequests(p, repr, e)
  {
  }

  /**
   * Nothing else is sent: every request is the delete, or a lookup, create
   * or update of one of the nodes or edges with that item's own params.
   */
  lemma UpdateSendsOnly(net: Net, p: Provider, repr: FloatRepr, nodes: seq<Node>, edges: seq<Edge>)
    ensures forall r :: r in Update(net, p, repr, OfEdge, nodes, edges).sent ==>
      r == DeleteGraph(p) || ForSomeNode(p, repr, nodes, r) || ForSomeEdge(p, repr, edges, r)
  {
    var s0 := Session([DeleteGraph(p)], false);
    NodesFoldSends(net, p, repr, s0, nodes);
    EdgesFoldSends(net, p, repr, NodesFold(net, p, repr, s0, nodes), edges);
  }

  // ---------------------------------------------------------------------------
  // The edge PUT as written

  /**
   * As written, the PUT for an edge the provider already has (status 200)
   * sends the params of the last node of the node loop; with the edge's own
   * params it sends those.
   */
  lemma EdgeUpdateSendsNodeParams(net: Net, p: Provider, repr: FloatRepr, nodes: seq<Node>, s: Session, e: Edge)
    requires nodes != [] && !s.stopped
    requires net(Get(EdgeUrl(p, e.source, e.target))) == Status(200)
    ensures EdgeStep(net, p, repr, AsWritten(nodes), s, e).sent
         == s.sent + [Get(EdgeUrl(p, e.source, e.target)), Put(EdgeUrl(p, e.source, e.target), NodeParams(nodes[|nodes| - 1], repr))]
    ensures EdgeStep(net, p, repr, OfEdge, s, e).sent
         == s.sent + [Get(EdgeUrl(p, e.source, e.target)), Put(EdgeUrl(p, e.source, e.target), EdgeParams(e, repr))]
  {
    var get := Get(EdgeUrl(p, e.source, e.target));
    assert EdgeStep(net, p, repr, AsWritten(nodes), s, e) == EdgePutStep(net, p, repr, AsWritten(nodes), Send(net, s, get), e);
    assert EdgeStep(net, p, repr, OfEdge, s, e) == EdgePutStep(net, p, repr, OfEdge, Send(net, s, get), e);
  }

  /** Those node params name neither end of an edge. */
  lemma NodeParamsMissEnds(n: Node, repr: FloatRepr)
    ensures Source !in NodeParams(n, repr).vals && Target !in NodeParams(n, repr).vals
  {
    NodeParamsField(n, repr, Source);
    NodeParamsField(n, repr, Target);
  }

  /** The edge's own params name both its ends. */
  lemma EdgeParamsNameEnds(e: Edge, repr: FloatRepr)
    ensures Source in EdgeParams(e, repr).vals && EdgeParams(e, repr).vals[Source] == e.source
    ensures Target in EdgeParams(e, repr).vals && EdgeParams(e, repr).vals[Target] == e.target
  {
    EdgeNamesDistinct(e);
    EdgeParamsField(e, repr, Source);
    EdgeParamsField(e, repr, Target);
  }

  /**
   * As written, with no nodes the name `node` is unbound: the first edge the
   * provider already has raises `UnboundLocalError` after its GET, and the
   * rest of the edge loop is skipped.
   */
  lemma EdgeUpdateWithoutNodes(net: Net, p: Provider, repr: FloatRepr, s: Session, e: Edge, rest: seq<Edge>)
    requires !s.stopped
    requires net(Get(EdgeUrl(p, e.source, e.target))) == Status(200)
    ensures EdgesFold(net, p, repr, AsWritten([]), s, [e] + rest) == Session(s.sent + [Get(EdgeUrl(p, e.source, e.target))], true)
  {
    var s1 := EdgeStep(net, p, repr, AsWritten([]), s, e);
    assert ([e] + rest)[..1] == [e] && [e][..0] == [];
    assert EdgesFold(net, p, repr, AsWritten([]), s, [e]) == s1;
    EdgesFoldAppend(net, p, repr, AsWritten([]), s, [e], rest);
    EdgesFoldStopped(net, p, repr, AsWritten([]), s1, rest);
  }

  // ---------------------------------------------------------------------------
  // `update_nodes`

  lemma {:induction false} NodesFoldAppend(net: Net, p: Provider, repr: FloatRepr, s: Session, a: seq<Node>, b: seq<Node>)
    ensures NodesFold(net, p, repr, s, a + b) == NodesFold(net, p, repr, NodesFold(net, p, repr, s, a), b)
    decreases |b|
  {
    if b == [] {
      assert a + b == a;
    } else {
      assert (a + b)[..|a + b| - 1] == a + b[..|b| - 1];
      NodesFoldAppend(net, p, repr, s, a, b[..|b| - 1]);
    }
  }

  lemma {:induction false} EdgesFoldAppend(net: Net, p: Provider, repr: FloatRepr, put: EdgePut, s: Session, a: seq<Edge>, b: seq<Edge>)
    ensures EdgesFold(net, p, repr, put, s, a + b) == EdgesFold(net, p, repr, put, EdgesFold(net, p, repr, put, s, a), b)
    decreases |b|
  {
    if b == [] {
      assert a + b == a;
    } else {
      assert (a + b)[..|a + b| - 1] == a + b[..|b| - 1];
      EdgesFoldAppend(net, p, repr, put, s, a, b[..|b| - 1]);
    }
  }

  /** A request that raises in the node loop ends the whole run there. */
  lemma NodesHalt(net: Net, p: Provider, repr: FloatRepr, s: Session, nodes: seq<Node>, edges: seq<Edge>, i: nat)
    requires i < |nodes| && NodesFold(net, p, repr, s, nodes[..i + 1]).stopped
    ensures EdgesFold(net, p, repr, OfEdge, NodesFold(net, p, repr, s, nodes), edges) == NodesFold(net, p, repr, s, nodes[..i + 1])
  {
    var a, b := nodes[..i + 1], nodes[i + 1..];
    assert nodes == a + b;
    var s1 := NodesFold(net, p, repr, s, a);
    NodesFoldAppend(net, p, repr, s, a, b);
    NodesFoldStopped(net, p, repr, s1, b);
    EdgesFoldStopped(net, p, repr, OfEdge, s1, edges);
  }

  /** A request that raises in the edge loop ends it there. */
  lemma EdgesHalt(net: Net, p: Provider, repr: FloatRepr, s: Session, edges: seq<Edge>, done: seq<Edge>)
    requires done <= edges && EdgesFold(net, p, repr, OfEdge, s, done).stopped
    ensures EdgesFold(net, p, repr, OfEdge, s, edges) == EdgesFold(net, p, repr, OfEdge, s, done)
  {
    var rest := edges[|done|..];
    StoppedPrefix(net, p, repr, s, done, rest);
    assert done + rest == edges;
  }

  /** Once a prefix of the edge loop raises, the rest of the list changes nothing. */
  lemma StoppedPrefix(net: Net, p: Provider, repr: FloatRepr, s: Session, a: seq<Edge>, b: seq<Edge>)
    requires EdgesFold(net, p, repr, OfEdge, s, a).stopped
    ensures EdgesFold(net, p, repr, OfEdge, s, a + b) == EdgesFold(net, p, repr, OfEdge, s, a)
  {
    EdgesFoldAppend(net, p, repr, OfEdge, s, a, b);
    EdgesFoldStopped(net, p, repr, OfEdge, EdgesFold(net, p, repr, OfEdge, s, a), b);
  }

  /**
   * `NodeGraphAPI.update_nodes`, with each edge updated with its own params:
   * the requests it sends, in order. The delete's own failure is ignored; the
   * first other request that raises ends both loops.
   */
  method UpdateNodes(net: Net, p: Provider, repr: FloatRepr, nodes: seq<Node>, edges: seq<Edge>) returns (sent: seq<Request>)
    ensures sent == Update(net, p, repr, OfEdge, nodes, edges).sent
  {
    ghost var s0 := Session([DeleteGraph(p)], false);
    sent := [DeleteGraph(p)];
    for i := 0 to |nodes|
      invariant Session(sent, false) == NodesFold(net, p, repr, s0, nodes[..i])
    {
      var n := nodes[i];
      assert nodes[..i + 1][..i] == nodes[..i];
      var get := Get(NodeUrl(p, n.id));
      sent := sent + [get];
      var answer := net(get);
      if answer.Refused? {
        NodesHalt(net, p, repr, s0, nodes, edges, i);
        return;
      }
      if answer.code == 404 {
        var params := ToParamsId(n, repr);
        var post := Post(NodesUrl(p), Some(params));
        sent := sent + [post];
        if net(post).Refused? {
          NodesHalt(net, p, repr, s0, nodes, edges, i);
          return;
        }
      } else if answer.code == 200 {
        var params := ToParams(n, repr);
        var put := Put(NodeUrl(p, n.id), params);
        sent := sent + [put];
        if net(put).Refused? {
          NodesHalt(net, p, repr, s0, nodes, edges, i);
          return;
        }
      }
    }
    assert nodes[..|nodes|] == nodes;
    ghost var s1 := NodesFold(net, p, repr, s0, nodes);
    for i := 0 to |edges|
      invariant Session(sent, false) == EdgesFold(net, p, repr, OfEdge, s1, edges[..i])
    {
      var e := edges[i];
      assert edges[..i + 1][..i] == edges[..i];
      var get := Get(EdgeUrl(p, e.source, e.target));
      sent := sent + [get];
      var answer := net(get);
      if answer.Refused? {
        EdgesHalt(net, p, repr, s1, edges, edges[..i + 1]);
        return;
      }
      if answer.code == 404 {
        var params := EdgeToParams(e, repr);
        var post := Post(EdgesUrl(p), Some(params));
        sent := sent + [post];
        if net(post).Refused? {
          EdgesHalt(net, p, repr, s1, edges, edges[..i + 1]);
          return;
        }
      } else if answer.code == 200 {
        var params := EdgeToParams(e, repr);
        var put := Put(EdgeUrl(p, e.source, e.target), params);
        sent := sent + [put];
        if net(put).Refused? {
          EdgesHalt(net, p, repr, s1, edges, edges[..i + 1]);
          return;
        }
      }
    }
    assert edges[..|edges|] == edges;
  }
}
