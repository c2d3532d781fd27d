/**
 * Edge derivation in `TempoTraces.execute`: for every node, every parent span
 * id recorded for it, and every node that parent span maps to, one count on
 * the edge from that node to the first; a parent span id `span_to_node` does
 * not know raises `KeyError`.
 */
module Edges {
  import opened Wrappers
  import opened PyDict
  import opened Graph
  import opened Aggregate

  /** One count on an edge: the target node, the parent span id linking them, the source node. */
  datatype Link = Link(target: string, parent: string, source: string)

  /** Every link the dicts hold. */
  ghost function Links(st: Agg): set<Link>
  {
    set t, p, s | t in st.nodeSpanParent && p in st.nodeSpanParent[t] && p in st.spanToNode && s in st.spanToNode[p]
      :: Link(t, p, s)
  }

  /** The links whose target is `t`. */
  ghost function LinksTo(st: Agg, t: string): set<Link>
  {
    set l | l in Links(st) && l.target == t
  }

  /** `p` is recorded as the parent span id of some node. */
  ghost predicate RecordedParent(st: Agg, p: string)
  {
    exists t :: t in st.nodeSpanParent && p in st.nodeSpanParent[t]
  }

  /** The number of parent span ids of `t` that map to `s`: what the edge from `s` to `t` counts. */
  ghost function LinkCount(st: Agg, s: string, t: string): nat
  {
    |set p | p in ParentsIn(st.nodeSpanParent, t) && p in st.spanToNode && s in st.spanToNode[p]|
  }

  /** A parent span id recorded for `t` that maps to `s` links `s` to `t`, and counts on their edge. */
  lemma LinkedBy(st: Agg, t: string, p: string, s: string)
    requires p in ParentsIn(st.nodeSpanParent, t) && p in st.spanToNode && s in st.spanToNode[p]
    ensures Link(t, p, s) in Links(st)
    ensures LinkCount(st, s, t) >= 1
  {
    var counted := set q | q in ParentsIn(st.nodeSpanParent, t) && q in st.spanToNode && s in st.spanToNode[q];
    assert p in counted;
    assert |counted| != 0;
  }

  /** The links among `links` filed under `key`. */
  ghost function KeyCount(links: set<Link>, key: string): nat
  {
    |set l | l in links && EdgeKey(l.source, l.target) == key|
  }

  /**
   * The edge dict after counting `done`: each key holds an edge whose key it
   * is, from a digest source, counted once per link filed under that key,
   * with `secondaryStat` untouched; and every link's key is present.
   */
  ghost predicate EdgeInv(edges: Dict<string, Edge>, done: set<Link>)
  {
    && Valid(edges)
    && (forall l :: l in done ==> EdgeKey(l.source, l.target) in edges.vals)
    && (forall k :: k in edges.vals ==> EdgeOk(edges.vals[k], k, KeyCount(done, k)))
  }

  ghost predicate EdgeOk(e: Edge, k: string, count: nat)
  {
    EdgeKey(e.source, e.target) == k && IsHexDigest(e.source) && e.mainStat == count as real && e.secondaryStat == 0.0 && count > 0
  }

  /** Adding one link adds one to its key's count and leaves the others alone. */
  lemma KeyCountAdd(done: set<Link>, l: Link, k: string)
    requires l !in done
    ensures KeyCount(done + {l}, k) == KeyCount(done, k) + if EdgeKey(l.source, l.target) == k then 1 else 0
  {
    var before := set x | x in done && EdgeKey(x.source, x.target) == k;
    var after := set x | x in done + {l} && EdgeKey(x.source, x.target) == k;
    if EdgeKey(l.source, l.target) == k {
      assert after == before + {l};
    } else {
      assert after == before;
    }
  }

  /** One link counted: find or create the edge under its key, then add one to it. */
  method CountLink(edges: Dict<string, Edge>, l: Link, ghost done: set<Link>) returns (edges': Dict<string, Edge>)
    requires EdgeInv(edges, done) && l !in done && IsHexDigest(l.source)
    ensures EdgeInv(edges', done + {l})
  {
    var key := EdgeKey(l.source, l.target);
    edges' := edges;
    if key !in edges'.vals {
      edges' := SetItem(edges', key, Edge(l.source, l.target, 0.0, 0.0));
    }
    var edge := edges'.vals[key];
    edges' := SetItem(edges', key, edge.(mainStat := edge.mainStat + 1.0));
    forall k | true
      ensures KeyCount(done + {l}, k) == KeyCount(done, k) + if key == k then 1 else 0
    {
      KeyCountAdd(done, l, k);
    }
  }

  /** The links through parent span id `p` of `t`, one per node in `sources`. */
  ghost function ParentLinks(t: string, p: string, sources: set<string>): set<Link>
  {
    set s | s in sources :: Link(t, p, s)
  }

  /** The links to `t` through the parent span ids in `ps` that `span_to_node` knows. */
  ghost function TargetLinks(st: Agg, t: string, ps: set<string>): set<Link>
  {
    set p, s | p in ps && p in st.spanToNode && s in st.spanToNode[p] :: Link(t, p, s)
  }

  /** The links whose target is among `ts`. */
  ghost function LinksOver(st: Agg, ts: set<string>): set<Link>
  {
    set l | l in Links(st) && l.target in ts
  }

  lemma ParentLinksStep(done: set<Link>, t: string, p: string, counted: set<string>, s: string)
    requires s !in counted
    requires forall l :: l in done ==> l.target != t || l.parent != p
    ensures Link(t, p, s) !in done + ParentLinks(t, p, counted)
    ensures done + ParentLinks(t, p, counted) + {Link(t, p, s)} == done + ParentLinks(t, p, counted + {s})
  {
  }

  lemma TargetLinksStep(st: Agg, done: set<Link>, t: string, counted: set<string>, p: string)
    requires p !in counted && p in st.spanToNode
    requires forall l :: l in done ==> l.target != t
    ensures forall l :: l in done + TargetLinks(st, t, counted) ==> l.target != t || l.parent != p
    ensures done + TargetLinks(st, t, counted) + ParentLinks(t, p, st.spanToNode[p]) == done + TargetLinks(st, t, counted + {p})
  {
  }

  /** The innermost loop: one count for every node the parent span id `p` maps to. */
  method CountParent(edges: Dict<string, Edge>, t: string, p: string, sources: set<string>, ghost done: set<Link>)
    returns (edges': Dict<string, Edge>)
    requires EdgeInv(edges, done)
    requires forall s :: s in sources ==> IsHexDigest(s)
    requires forall l :: l in done ==> l.target != t || l.parent != p
    ensures EdgeInv(edges', done + ParentLinks(t, p, sources))
  {
    edges' := edges;
    var rest := sources;
    ghost var counted: set<string> := {};
    assert done + ParentLinks(t, p, counted) == done;
    while rest != {}
      invariant rest <= sources && counted == sources - rest
      invariant EdgeInv(edges', done + ParentLinks(t, p, counted))
      decreases rest
    {
      var s :| s in rest;
      ghost var before := done + ParentLinks(t, p, counted);
      ParentLinksStep(done, t, p, counted, s);
      edges' := CountLink(edges', Link(t, p, s), before);
      rest := rest - {s};
      counted := counted + {s};
    }
    assert counted == sources;
  }

  /** Every node `span_to_node` maps a span id to is a digest. */
  ghost predicate HexSources(stn: map<string, set<string>>)
  {
    forall p, s :: p in stn && s in stn[p] ==> IsHexDigest(s)
  }

  /** The walk only ever maps span ids to node ids, which are digests. */
  lemma WfHexSources(st: Agg)
    requires Wf(st)
    ensures HexSources(st.spanToNode)
  {
    forall p, s | p in st.spanToNode && s in st.spanToNode[p]
      ensures IsHexDigest(s)
    {
      assert s in st.nodes.vals;
    }
  }

  /**
   * The middle loop: count every parent span id recorded for `t`; a parent
   * `span_to_node` does not know raises `KeyError`.
   */
  method CountTarget(st: Agg, edges: Dict<string, Edge>, t: string, ghost done: set<Link>)
    returns (r: Result<Dict<string, Edge>, string>)
    requires HexSources(st.spanToNode) && t in st.nodeSpanParent && EdgeInv(edges, done)
    requires forall l :: l in done ==> l.target != t
    ensures r.Success? <==> forall p :: p in st.nodeSpanParent[t] ==> p in st.spanToNode
    ensures r.Failure? ==> r.error in st.nodeSpanParent[t] && r.error !in st.spanToNode
    ensures r.Success? ==> EdgeInv(r.value, done + TargetLinks(st, t, st.nodeSpanParent[t]))
  {
    var edges' := edges;
    var rest := st.nodeSpanParent[t];
    ghost var counted: set<string> := {};
    assert done + TargetLinks(st, t, counted) == done;
    while rest != {}
      invariant rest <= st.nodeSpanParent[t] && counted == st.nodeSpanParent[t] - rest
      invariant forall p :: p in counted ==> p in st.spanToNode
      invariant EdgeInv(edges', done + TargetLinks(st, t, counted))
      decreases rest
    {
      var p :| p in rest;
      if p !in st.spanToNode {
        return Failure(p);
      }
      ghost var before := done + TargetLinks(st, t, counted);
      TargetLinksStep(st, done, t, counted, p);
      edges' := CountParent(edges', t, p, st.spanToNode[p], before);
      rest := rest - {p};
      counted := counted + {p};
    }
    assert counted == st.nodeSpanParent[t];
    return Success(edges');
  }

  /** Counting the links to one more target `t` extends the links counted so far by disjoint ones. */
  lemma LinksOverStep(st: Agg, seen: set<string>, t: string)
    requires t in st.nodeSpanParent && t !in seen
    ensures forall l :: l in LinksOver(st, seen) ==> l.target != t
    ensures LinksOver(st, seen + {t}) == LinksOver(st, seen) + TargetLinks(st, t, st.nodeSpanParent[t])
  {
  }

  /** Every parent span id recorded for the targets in `ts` is known to `span_to_node`. */
  ghost predicate ParentsKnown(st: Agg, ts: set<string>)
  {
    forall t, p :: t in ts && t in st.nodeSpanParent && p in st.nodeSpanParent[t] ==> p in st.spanToNode
  }

  lemma MissingOne(st: Agg, t: string, p: string)
    requires t in st.nodeSpanParent && p in st.nodeSpanParent[t] && p !in st.spanToNode
    ensures RecordedParent(st, p) && !ParentsKnown(st, st.nodeSpanParent.Keys)
  {
  }

  lemma AllLinks(st: Agg)
    ensures LinksOver(st, st.nodeSpanParent.Keys) == Links(st)
  {
  }

  lemma KnownStep(st: Agg, seen: set<string>, t: string)
    requires ParentsKnown(st, seen) && t in st.nodeSpanParent
    requires forall p :: p in st.nodeSpanParent[t] ==> p in st.spanToNode
    ensures ParentsKnown(st, seen + {t})
  {
  }

  /**
   * The outer loop over `node_span_parent`: either some recorded parent span
   * id is unknown to `span_to_node` and the walk raises `KeyError` on one of
   * them, or the edge dict counts every link.
   */
  method DeriveEdges(st: Agg) returns (r: Result<Dict<string, Edge>, string>)
    requires HexSources(st.spanToNode)
    ensures r.Failure? <==> !ParentsKnown(st, st.nodeSpanParent.Keys)
    ensures r.Failure? ==> RecordedParent(st, r.error) && r.error !in st.spanToNode
    ensures r.Success? ==> EdgeInv(r.value, Links(st))
  {
    var edges := Empty();
    var rest := st.nodeSpanParent.Keys;
    ghost var seen: set<string> := {};
    assert LinksOver(st, seen) == {};
    while rest != {}
      invariant rest <= st.nodeSpanParent.Keys && seen == st.nodeSpanParent.Keys - rest
      invariant ParentsKnown(st, seen)
      invariant EdgeInv(edges, LinksOver(st, seen))
      decreases rest
    {
      var t :| t in rest;
      LinksOverStep(st, seen, t);
      var res := CountTarget(st, edges, t, LinksOver(st, seen));
      if res.Failure? {
        MissingOne(st, t, res.error);
        return Failure(res.error);
      }
      KnownStep(st, seen, t);
      edges := res.value;
      rest := rest - {t};
      seen := seen + {t};
    }
    assert seen == st.nodeSpanParent.Keys;
    AllLinks(st);
    return Success(edges);
  }

  /** Distinct parent span ids give distinct links. */
  lemma {:induction false} ParentLinksCard(t: string, ps: set<string>, s: string)
    ensures |set p | p in ps :: Link(t, p, s)| == |ps|
    decreases ps
  {
    if ps != {} {
      var q :| q in ps;
      ParentLinksCard(t, ps - {q}, s);
      assert (set p | p in ps :: Link(t, p, s)) == (set p | p in ps - {q} :: Link(t, p, s)) + {Link(t, q, s)};
    }
  }

  /** The links under the key of `s` and `t` are exactly the links from `s` to `t`, one per parent span id. */
  lemma KeyCountIsLinkCount(st: Agg, s: string, t: string)
    requires HexSources(st.spanToNode) && IsHexDigest(s)
    ensures KeyCount(Links(st), EdgeKey(s, t)) == LinkCount(st, s, t)
  {
    var ps := set p | p in ParentsIn(st.nodeSpanParent, t) && p in st.spanToNode && s in st.spanToNode[p];
    var keyed := set l | l in Links(st) && EdgeKey(l.source, l.target) == EdgeKey(s, t);
    forall l | l in keyed
      ensures l.source == s && l.target == t
    {
      EdgeKeyInjective(l.source, l.target, s, t);
    }
    assert keyed == set p | p in ps :: Link(t, p, s);
    ParentLinksCard(t, ps, s);
  }

  /**
   * Once every link is counted, the edge from `s` to `t` exists exactly when
   * some parent span id of `t` maps to `s`, and then it is filed under their
   * key, counts those parent span ids, and has `secondaryStat` 0.
   */
  lemma EdgeFor(st: Agg, edges: Dict<string, Edge>, s: string, t: string)
    requires HexSources(st.spanToNode) && IsHexDigest(s) && EdgeInv(edges, Links(st))
    ensures EdgeKey(s, t) in edges.vals <==> LinkCount(st, s, t) > 0
    ensures EdgeKey(s, t) in edges.vals ==> edges.vals[EdgeKey(s, t)] == Edge(s, t, LinkCount(st, s, t) as real, 0.0)
  {
    var k := EdgeKey(s, t);
    KeyCountIsLinkCount(st, s, t);
    if LinkCount(st, s, t) > 0 {
      var keyed := set l | l in Links(st) && EdgeKey(l.source, l.target) == k;
      assert keyed != {};
      var l :| l in keyed;
      assert k in edges.vals;
    }
    if k in edges.vals {
      var e := edges.vals[k];
      assert EdgeOk(e, k, KeyCount(Links(st), k));
      EdgeKeyInjective(e.source, e.target, s, t);
    }
  }

  /** Every edge the dict holds is from a digest source, with a positive count. */
  lemma EdgeHeld(st: Agg, edges: Dict<string, Edge>, k: string)
    requires HexSources(st.spanToNode) && EdgeInv(edges, Links(st)) && k in edges.vals
    ensures IsHexDigest(edges.vals[k].source)
    ensures k == EdgeKey(edges.vals[k].source, edges.vals[k].target)
    ensures LinkCount(st, edges.vals[k].source, edges.vals[k].target) > 0
  {
    var e := edges.vals[k];
    assert EdgeOk(e, k, KeyCount(Links(st), k));
    KeyCountIsLinkCount(st, e.source, e.target);
  }
}
