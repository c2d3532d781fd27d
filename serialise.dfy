/**
 * `Node.to_params`, `Node.to_params_id` and `Edge.to_params`: the string
 * dicts sent to the node-graph store, built by walking `__dict__` in
 * attribute order.
 */
module Serialise {
  import opened Wrappers
  import opened PyDict
  import opened Graph

  /** The attribute names of `Node` and `Edge`; `Wire` gives the name as sent. */
  datatype Field =
    | ArcFailed | ArcPassed | DetailRole | Id | MainStat | SecondaryStat | SubTitle | Title
    | Source | Target

  function Wire(f: Field): string
  {
    match f
    case ArcFailed => "arc__failed"
    case ArcPassed => "arc__passed"
    case DetailRole => "detail__role"
    case Id => "id"
    case MainStat => "mainStat"
    case SecondaryStat => "secondaryStat"
    case SubTitle => "subTitle"
    case Title => "title"
    case Source => "source"
    case Target => "target"
  }

  /** An attribute value as `__dict__` holds it. */
  datatype Attr = Float(x: real) | Str(s: string)

  /** `str(value)`. */
  function PyStr(repr: FloatRepr, a: Attr): string
  {
    match a
    case Float(x) => repr(x)
    case Str(s) => s
  }

  /** `__dict__.items()` of a node: its attributes in the order `__init__` assigns them. */
  function NodeAttributes(n: Node): seq<(Field, Attr)>
  {
    [(ArcFailed, Float(n.arcFailed)), (ArcPassed, Float(n.arcPassed)), (DetailRole, Str(n.detailRole)),
     (Id, Str(n.id)), (MainStat, Float(n.mainStat)), (SecondaryStat, Float(n.secondaryStat)),
     (SubTitle, Str(n.subTitle)), (Title, Str(n.title))]
  }

  /** `__dict__.items()` of an edge. */
  function EdgeAttributes(e: Edge): seq<(Field, Attr)>
  {
    [(Source, Str(e.source)), (Target, Str(e.target)),
     (MainStat, Float(e.mainStat)), (SecondaryStat, Float(e.secondaryStat))]
  }

  const NodeFields: seq<Field> := [ArcFailed, ArcPassed, DetailRole, Id, MainStat, SecondaryStat, SubTitle, Title]

  /** The node fields `to_params` sends: all but `id`. */
  const NodeParamFields: seq<Field> := [ArcFailed, ArcPassed, DetailRole, MainStat, SecondaryStat, SubTitle, Title]

  const EdgeFields: seq<Field> := [Source, Target, MainStat, SecondaryStat]

  function Names(attrs: seq<(Field, Attr)>): (r: seq<Field>)
    ensures |r| == |attrs| && forall i :: 0 <= i < |r| ==> r[i] == attrs[i].0
  {
    seq(|attrs|, i requires 0 <= i < |attrs| => attrs[i].0)
  }

  predicate DistinctNames(attrs: seq<(Field, Attr)>)
  {
    forall i, j :: 0 <= i < j < |attrs| ==> attrs[i].0 != attrs[j].0
  }

  /**
   * The dict the serialisers build: `str(value)` of every attribute in
   * `__dict__` order, leaving out the attribute `skip` (`to_params` skips `id`).
   */
  function ParamsOf(attrs: seq<(Field, Attr)>, repr: FloatRepr, skip: Option<Field>): (d: Dict<Field, string>)
    requires DistinctNames(attrs)
    ensures Valid(d)
  {
    if attrs == [] then Empty()
    else
      var n := |attrs| - 1;
      var d := ParamsOf(attrs[..n], repr, skip);
      if Some(attrs[n].0) == skip then d else SetItem(d, attrs[n].0, PyStr(repr, attrs[n].1))
  }

  /** Every attribute but `skip` is sent, as `str()` renders it; nothing else is. */
  lemma ParamsOfVals(attrs: seq<(Field, Attr)>, repr: FloatRepr, skip: Option<Field>, f: Field)
    requires DistinctNames(attrs)
    ensures f in ParamsOf(attrs, repr, skip).vals <==>
      Some(f) != skip && exists i :: 0 <= i < |attrs| && attrs[i].0 == f
    ensures forall i :: 0 <= i < |attrs| && attrs[i].0 == f && Some(f) != skip ==>
      ParamsOf(attrs, repr, skip).vals[f] == PyStr(repr, attrs[i].1)
  {
    ParamsOfHas(attrs, repr, skip, f);
    forall i | 0 <= i < |attrs| && attrs[i].0 == f && Some(f) != skip
      ensures ParamsOf(attrs, repr, skip).vals[f] == PyStr(repr, attrs[i].1)
    {
      ParamsOfAt(attrs, repr, skip, i);
    }
  }

  /** The keys sent are the attribute names other than `skip`. */
  lemma {:induction false} ParamsOfHas(attrs: seq<(Field, Attr)>, repr: FloatRepr, skip: Option<Field>, f: Field)
    requires DistinctNames(attrs)
    ensures f in ParamsOf(attrs, repr, skip).vals <==>
      Some(f) != skip && exists i :: 0 <= i < |attrs| && attrs[i].0 == f
  {
    if attrs != [] {
      var n := |attrs| - 1;
      ParamsOfHas(attrs[..n], repr, skip, f);
      assert forall i :: 0 <= i < n ==> attrs[..n][i] == attrs[i];
    }
  }

  /** The attribute at `i`, unless skipped, is sent as `str()` renders it. */
  lemma {:induction false} ParamsOfAt(attrs: seq<(Field, Attr)>, repr: FloatRepr, skip: Option<Field>, i: nat)
    requires DistinctNames(attrs) && i < |attrs| && Some(attrs[i].0) != skip
    ensures attrs[i].0 in ParamsOf(attrs, repr, skip).vals
    ensures ParamsOf(attrs, repr, skip).vals[attrs[i].0] == PyStr(repr, attrs[i].1)
  {
    var n := |attrs| - 1;
    if i < n {
      ParamsOfAt(attrs[..n], repr, skip, i);
      assert attrs[..n][i] == attrs[i];
    }
  }

  /** The names of `names` other than `skip`, in order. */
  function Kept(names: seq<Field>, skip: Option<Field>): seq<Field>
  {
    if names == [] then []
    else
      var n := |names| - 1;
      Kept(names[..n], skip) + (if Some(names[n]) == skip then [] else [names[n]])
  }

  /** Filtering distributes over concatenation. */
  lemma {:induction false} KeptAppend(a: seq<Field>, b: seq<Field>, skip: Option<Field>)
    ensures Kept(a + b, skip) == Kept(a, skip) + Kept(b, skip)
    decreases |b|
  {
    if b != [] {
      var n := |b| - 1;
      assert (a + b)[..|a + b| - 1] == a + b[..n];
      KeptAppend(a, b[..n], skip);
    } else {
      assert a + b == a;
    }
  }

  /** Nothing is left out when `skip` is not among the names. */
  lemma {:induction false} KeptAbsent(names: seq<Field>, skip: Option<Field>)
    requires forall i :: 0 <= i < |names| ==> Some(names[i]) != skip
    ensures Kept(names, skip) == names
  {
    if names != [] {
      var n := |names| - 1;
      KeptAbsent(names[..n], skip);
    }
  }

  /** The keys, in insertion order, are the attribute names in `__dict__` order with `skip` left out. */
  lemma {:induction false} ParamsOfKeys(attrs: seq<(Field, Attr)>, repr: FloatRepr, skip: Option<Field>)
    requires DistinctNames(attrs)
    ensures ParamsOf(attrs, repr, skip).keys == Kept(Names(attrs), skip)
  {
    if attrs != [] {
      var n := |attrs| - 1;
      ParamsOfKeys(attrs[..n], repr, skip);
      assert Names(attrs)[..n] == Names(attrs[..n]);
      if Some(attrs[n].0) != skip {
        ParamsOfLastNew(attrs, repr, skip);
      }
    }
  }

  /** The last attribute's name is not among the keys the others give, so setting it appends it. */
  lemma ParamsOfLastNew(attrs: seq<(Field, Attr)>, repr: FloatRepr, skip: Option<Field>)
    requires DistinctNames(attrs) && attrs != []
    ensures attrs[|attrs| - 1].0 !in ParamsOf(attrs[..|attrs| - 1], repr, skip).vals
  {
    var n := |attrs| - 1;
    ParamsOfHas(attrs[..n], repr, skip, attrs[n].0);
  }

  /** The loop the three serialisers share (`for key, value in self.__dict__.items()`). */
  method StrParams(attrs: seq<(Field, Attr)>, repr: FloatRepr, skip: Option<Field>) returns (params: Dict<Field, string>)
    requires DistinctNames(attrs)
    ensures params == ParamsOf(attrs, repr, skip)
  {
    params := Empty();
    for i := 0 to |attrs|
      invariant params == ParamsOf(attrs[..i], repr, skip)
    {
      var (key, value) := attrs[i];
      assert attrs[..i + 1][..i] == attrs[..i];
      if Some(key) != skip {
        params := SetItem(params, key, PyStr(repr, value));
      }
    }
    assert attrs[..|attrs|] == attrs;
  }

  /** The dict `Node.to_params` returns. */
  function NodeParams(n: Node, repr: FloatRepr): Dict<Field, string>
  {
    ParamsOf(NodeAttributes(n), repr, Some(Id))
  }

  /** The dict `Node.to_params_id` returns. */
  function NodeParamsWithId(n: Node, repr: FloatRepr): Dict<Field, string>
  {
    ParamsOf(NodeAttributes(n), repr, None)
  }

  /** The dict `Edge.to_params` returns. */
  function EdgeParams(e: Edge, repr: FloatRepr): Dict<Field, string>
  {
    ParamsOf(EdgeAttributes(e), repr, None)
  }

  /** The node attribute named `f` (the field `Id` for edge-only names, which no node has). */
  function NodeAttr(n: Node, f: Field): Attr
  {
    match f
    case ArcFailed => Float(n.arcFailed)
    case ArcPassed => Float(n.arcPassed)
    case DetailRole => Str(n.detailRole)
    case MainStat => Float(n.mainStat)
    case SecondaryStat => Float(n.secondaryStat)
    case SubTitle => Str(n.subTitle)
    case Title => Str(n.title)
    case _ => Str(n.id)
  }

  function EdgeAttr(e: Edge, f: Field): Attr
  {
    match f
    case Source => Str(e.source)
    case Target => Str(e.target)
    case MainStat => Float(e.mainStat)
    case _ => Float(e.secondaryStat)
  }

  lemma NodeAttributesNamed(n: Node, f: Field) returns (i: nat)
    ensures f in NodeFields ==> i < 8 && NodeAttributes(n)[i] == (f, NodeAttr(n, f))
    ensures f !in NodeFields ==> forall i :: 0 <= i < 8 ==> NodeAttributes(n)[i].0 != f
  {
    var attrs := NodeAttributes(n);
    match f
    case ArcFailed => i := 0;
    case ArcPassed => i := 1;
    case DetailRole => i := 2;
    case Id => i := 3;
    case MainStat => i := 4;
    case SecondaryStat => i := 5;
    case SubTitle => i := 6;
    case Title => i := 7;
    case _ => i := 0;
  }

  lemma EdgeAttributesNamed(e: Edge, f: Field) returns (i: nat)
    ensures f in EdgeFields ==> i < 4 && EdgeAttributes(e)[i] == (f, EdgeAttr(e, f))
    ensures f !in EdgeFields ==> forall i :: 0 <= i < 4 ==> EdgeAttributes(e)[i].0 != f
  {
    var attrs := EdgeAttributes(e);
    match f
    case Source => i := 0;
    case Target => i := 1;
    case MainStat => i := 2;
    case SecondaryStat => i := 3;
    case _ => i := 0;
  }

  /** `to_params` sends the field `f` exactly when it is a node field other than `id`, as `str()` renders it. */
  lemma NodeParamsField(n: Node, repr: FloatRepr, f: Field)
    ensures f in NodeParams(n, repr).vals <==> f in NodeParamFields
    ensures f in NodeParamFields ==> NodeParams(n, repr).vals[f] == PyStr(repr, NodeAttr(n, f))
  {
    NodeNamesDistinct(n);
    var i := NodeAttributesNamed(n, f);
    ParamsOfHas(NodeAttributes(n), repr, Some(Id), f);
    if f in NodeParamFields {
      ParamsOfAt(NodeAttributes(n), repr, Some(Id), i);
    }
  }

  /** `to_params_id` sends every node field, `id` included. */
  lemma NodeParamsWithIdField(n: Node, repr: FloatRepr, f: Field)
    ensures f in NodeParamsWithId(n, repr).vals <==> f in NodeFields
    ensures f in NodeFields ==> NodeParamsWithId(n, repr).vals[f] == PyStr(repr, NodeAttr(n, f))
  {
    NodeNamesDistinct(n);
    var i := NodeAttributesNamed(n, f);
    ParamsOfHas(NodeAttributes(n), repr, None, f);
    if f in NodeFields {
      ParamsOfAt(NodeAttributes(n), repr, None, i);
    }
  }

  lemma EdgeParamsField(e: Edge, repr: FloatRepr, f: Field)
    ensures f in EdgeParams(e, repr).vals <==> f in EdgeFields
    ensures f in EdgeFields ==> EdgeParams(e, repr).vals[f] == PyStr(repr, EdgeAttr(e, f))
  {
    EdgeNamesDistinct(e);
    var i := EdgeAttributesNamed(e, f);
    ParamsOfHas(EdgeAttributes(e), repr, None, f);
    if f in EdgeFields {
      ParamsOfAt(EdgeAttributes(e), repr, None, i);
    }
  }

  /** `to_params` sends every node field but `id`, in declaration order. */
  lemma NodeParamsKeys(n: Node, repr: FloatRepr)
    ensures NodeParams(n, repr).keys == NodeParamFields
  {
    NodeNamesDistinct(n);
    ParamsOfKeys(NodeAttributes(n), repr, Some(Id));
    KeptNodeFields();
  }

  /** Leaving `id` out of the node fields gives the fields `to_params` sends. */
  lemma KeptNodeFields()
    ensures Kept(NodeFields, Some(Id)) == NodeParamFields
  {
    var before, after := NodeFields[..3], NodeFields[4..];
    assert NodeFields == (before + [Id]) + after;
    KeptAppend(before + [Id], after, Some(Id));
    KeptAppend(before, [Id], Some(Id));
    KeptAbsent(before, Some(Id));
    KeptAbsent(after, Some(Id));
    assert Kept([Id], Some(Id)) == Kept([], Some(Id)) + [];
    assert before + after == NodeParamFields;
  }

  /** `to_params_id` sends every node field, `id` included, in declaration order. */
  lemma NodeParamsWithIdKeys(n: Node, repr: FloatRepr)
    ensures NodeParamsWithId(n, repr).keys == NodeFields
  {
    NodeNamesDistinct(n);
    ParamsOfKeys(NodeAttributes(n), repr, None);
    KeptAbsent(NodeFields, None);
  }

  /** `to_params_id` is `to_params` with `id` added. */
  lemma ParamsWithIdExtendsParams(n: Node, repr: FloatRepr)
    ensures Id !in NodeParams(n, repr).vals
    ensures NodeParamsWithId(n, repr).vals == NodeParams(n, repr).vals[Id := n.id]
  {
    var p, q := NodeParams(n, repr), NodeParamsWithId(n, repr);
    forall f | true
      ensures f in q.vals <==> f in p.vals[Id := n.id]
      ensures f in q.vals ==> q.vals[f] == p.vals[Id := n.id][f]
    {
      NodeParamsField(n, repr, f);
      NodeParamsWithIdField(n, repr, f);
    }
    NodeParamsField(n, repr, Id);
  }

  /** `to_params_id` puts `id` where `__init__` assigns it, after `detail__role`. */
  lemma ParamsWithIdKeyOrder(n: Node, repr: FloatRepr)
    ensures |NodeParams(n, repr).keys| == 7
    ensures NodeParamsWithId(n, repr).keys
         == NodeParams(n, repr).keys[..3] + [Id] + NodeParams(n, repr).keys[3..]
  {
    NodeParamsKeys(n, repr);
    NodeParamsWithIdKeys(n, repr);
    assert NodeParamFields[..3] + [Id] + NodeParamFields[3..] == NodeFields;
  }

  /** `Edge.to_params` sends the four edge fields, in declaration order. */
  lemma EdgeParamsKeys(e: Edge, repr: FloatRepr)
    ensures EdgeParams(e, repr).keys == EdgeFields
  {
    EdgeNamesDistinct(e);
    ParamsOfKeys(EdgeAttributes(e), repr, None);
    KeptAbsent(EdgeFields, None);
  }

  lemma NodeNamesDistinct(n: Node)
    ensures Names(NodeAttributes(n)) == NodeFields
    ensures DistinctNames(NodeAttributes(n))
  {
  }

  lemma EdgeNamesDistinct(e: Edge)
    ensures Names(EdgeAttributes(e)) == EdgeFields
    ensures DistinctNames(EdgeAttributes(e))
  {
  }

  /** `Node.to_params`. */
  method ToParams(n: Node, repr: FloatRepr) returns (params: Dict<Field, string>)
    ensures params == NodeParams(n, repr)
  {
    var attrs := NodeAttributes(n);
    NodeNamesDistinct(n);
    params := StrParams(attrs, repr, Some(Id));
  }

  /** `Node.to_params_id`. */
  method ToParamsId(n: Node, repr: FloatRepr) returns (params: Dict<Field, string>)
    ensures params == NodeParamsWithId(n, repr)
  {
    var attrs := NodeAttributes(n);
    NodeNamesDistinct(n);
    params := StrParams(attrs, repr, None);
  }

  /** `Edge.to_params`. */
  method EdgeToParams(e: Edge, repr: FloatRepr) returns (params: Dict<Field, string>)
    ensures params == EdgeParams(e, repr)
  {
    var attrs := EdgeAttributes(e);
    EdgeNamesDistinct(e);
    params := StrParams(attrs, repr, None);
  }
}
