/**
 * The graph entities of the collector: `Node` and `Edge` (collect.py, classes
 * `Node` and `Edge`), their identifiers and their string serialisers.
 */
module Graph {
  import opened Wrappers
  import opened PyDict

  const HexChars := "0123456789abcdef"

  /** What `hexdigest()` of an MD5 hash returns: 32 lowercase hexadecimal digits. */
  predicate IsHexDigest(s: string)
  {
    |s| == 32 && forall i :: 0 <= i < |s| ==> s[i] in HexChars
  }

  type Digest = s: string | IsHexDigest(s) witness "00000000000000000000000000000000"

  /** `md5(str.encode(x)).hexdigest()`, left uninterpreted. */
  type Md5 = string -> Digest

  /** Python's `str()` of a float, left uninterpreted. */
  type FloatRepr = real -> string

  /** The latency (in the units of `secondaryStat`) above which a node is failed. */
  const LatencyThreshold: real := 40.0

  /** The fixed sub-title of the service (ingress) node. */
  const IngressSubTitle := "Trace ingress"

  datatype Node = Node(
    arcFailed: real,
    arcPassed: real,
    detailRole: string,
    id: string,
    mainStat: real,
    secondaryStat: real,
    subTitle: string,
    title: string)

  datatype Edge = Edge(source: string, target: string, mainStat: real, secondaryStat: real)

  /** Exactly one of the two arcs is 1.0, and it is the failed one iff the latency is over the threshold. */
  predicate Healthy(n: Node)
  {
    if n.secondaryStat > LatencyThreshold then n.arcFailed == 1.0 && n.arcPassed == 0.0
    else n.arcFailed == 0.0 && n.arcPassed == 1.0
  }

  /** `Node()` followed by setting `id`, `title` and `subTitle`. */
  function NewNode(id: string, title: string, subTitle: string): (n: Node)
    ensures n.id == id && n.title == title && n.subTitle == subTitle
    ensures n.mainStat == 0.0 && n.secondaryStat == 0.0 && n.detailRole == ""
    ensures n.arcPassed == 1.0 && n.arcFailed == 0.0 && Healthy(n)
  {
    Node(0.0, 1.0, "", id, 0.0, 0.0, subTitle, title)
  }

  /**
   * The latency recurrence as the code writes it, with `count` the call count
   * after the increment: the addend uses the old value, and the duration in
   * nanoseconds is divided by one million only after the division by the count.
   */
  function RunningLatency(old_: real, count: real, startNano: int, endNano: int): real
    requires count != 0.0
  {
    old_ + ((old_ + endNano as real - startNano as real) / count) / 1000000.0
  }

  /** The metric update one span makes to its node: count, latency, health. */
  function Observe(n: Node, startNano: int, endNano: int): (r: Node)
    requires n.mainStat >= 0.0
    ensures r.mainStat == n.mainStat + 1.0
    ensures r.secondaryStat == RunningLatency(n.secondaryStat, r.mainStat, startNano, endNano)
    ensures Healthy(r)
    ensures r.arcFailed == 1.0 <==> r.secondaryStat > LatencyThreshold
    ensures r.arcFailed + r.arcPassed == 1.0
    ensures r.id == n.id && r.title == n.title && r.subTitle == n.subTitle && r.detailRole == n.detailRole
  {
    var count := n.mainStat + 1.0;
    var latency := RunningLatency(n.secondaryStat, count, startNano, endNano);
    if latency > LatencyThreshold then n.(mainStat := count, secondaryStat := latency, arcFailed := 1.0, arcPassed := 0.0)
    else n.(mainStat := count, secondaryStat := latency, arcFailed := 0.0, arcPassed := 1.0)
  }

  /** The key `execute` files an edge under while counting: `f"{source}#{target}"`. */
  function EdgeKey(source: string, target: string): string
  {
    source + "#" + target
  }

  /** Between a digest source and any target, the counting key determines the pair. */
  lemma EdgeKeyInjective(s1: string, t1: string, s2: string, t2: string)
    requires IsHexDigest(s1) && IsHexDigest(s2)
    requires EdgeKey(s1, t1) == EdgeKey(s2, t2)
    ensures s1 == s2 && t1 == t2
  {
    assert EdgeKey(s1, t1)[..32] == s1 && EdgeKey(s2, t2)[..32] == s2;
    assert EdgeKey(s1, t1)[33..] == t1 && EdgeKey(s2, t2)[33..] == t2;
  }

  /** `Edge.get_id`. */
  function GetId(e: Edge): string
  {
    e.source + ":" + e.target
  }

  /** Between node identifiers (digests), the edge id names its pair: it splits back into both ends. */
  lemma GetIdSplits(e: Edge)
    requires IsHexDigest(e.source)
    ensures |GetId(e)| > 32 && GetId(e)[32] == ':'
    ensures GetId(e)[..32] == e.source && GetId(e)[33..] == e.target
  {
    assert GetId(e)[..32] == e.source;
    assert GetId(e)[33..] == e.target;
  }

  /** So two edges between digests with one id join the same two nodes. */
  lemma GetIdInjective(e1: Edge, e2: Edge)
    requires IsHexDigest(e1.source) && IsHexDigest(e2.source)
    requires GetId(e1) == GetId(e2)
    ensures e1.source == e2.source && e1.target == e2.target
  {
    GetIdSplits(e1);
    GetIdSplits(e2);
  }
}
