# Tempo trace aggregation, modelled in Dafny

This project models the core of `tempo_trace_aggregation`, a collector. It
reads traces from a Tempo backend and turns them into a service graph for a
node-graph provider:

- `TempoTraces.execute` walks the backend's data:
  - the values of a tag;
  - the traces found for each value;
  - the batches of each trace;
  - the instrumentation libraries of each batch;
  - the spans of each library.
- Along the way it fills three dicts:
  - `nodes`: one node per hashed `service##name`, with a call count, a running latency and a health arc;
  - `span_to_node`;
  - `node_span_parent`.
- It then counts one edge per parent span id that links two nodes.
- `_api_call` turns every unusable reply into "empty".
- `Node.to_params`, `Node.to_params_id` and `Edge.to_params` render the entities as string dicts.
- `NodeGraphAPI.delete_graph` and `update_nodes` clear the provider's graph, then create or update every node and edge.
- `Log._format` and `_create_fmt` render a dict as a `key=value` log line.

The modules follow the program:

| file | module | what it holds |
|---|---|---|
| `wrappers.dfy` | `Wrappers` | `Option`, `Result` |
| `pydict.dfy` | `PyDict` | a Python `dict`: a map and its insertion order |
| `graph.dfy` | `Graph` | `Node`, `Edge`, ids, the latency and health update |
| `serialise.dfy` | `Serialise` | `to_params`, `to_params_id`, `Edge.to_params` |
| `tempo.dfy` | `Tempo` | the backend's replies, `_api_call` |
| `aggregate.dfy` | `Aggregate` | the three dicts, the update one span makes, that update folded over the walk |
| `edges.dfy` | `Edges` | edge derivation, as the three nested loops of the source |
| `collect.dfy` | `Collect` | the walk's loops and `execute` |
| `sync.dfy` | `Sync` | `delete_graph`, `update_nodes` |
| `logfmt.dfy` | `LogFormat` | `_format`, `_create_fmt` |

The code changes its dicts step by step, so the loops of `execute`,
`update_nodes`, the serialisers and `_format` are methods with loops. Each
method is proved equal to a function that folds over the same data. What
the source promises is then proved about those functions as lemmas.

Some operations are outside the model, and they become parameters:
- the HTTP backends (`Backend`, `Net`);
- MD5 (`Md5`, which is trusted to return 32 lowercase hex digits);
- `re.search` (`Matcher`);
- `str()` of a float (`FloatRepr`).

## Where the code differs from its design

The model follows the code in each of these places.

- `execute` tests the tag filter against the tag NAME, not against each tag value (collect.py:124). So the filter accepts or rejects every value alike (`Aggregate.FilterRejectsEverything`, `Aggregate.FoldTagsMatcher`).
- There is ONE service node, keyed by the hash of `{tag}##service` (collect.py:134). It takes its title from the first accepted tag value (`Aggregate.ServiceNodeTitle`). There is not one service node per tag value.
- A parent span id that `span_to_node` does not know is not skipped. It raises `KeyError` (collect.py:205), and that error leaves `execute`. The model returns it as `Raised(key)`.
- The `span_to_node` update (collect.py:196-198) tests whether the NODE id is a key, but it writes under the SPAN id. When the node id is not a key, the span's set is reset to this node alone. When the node id is a key and the span id is not, a `KeyError` is raised. That case arises, for example, when the service node's id is a key (`Aggregate.RecordSpan`).
- Edges are keyed by the ordered pair `source#target`.
- The graph is cleared with a body-less POST to `/api/controller/{graph}/delete-all`, not with DELETE (collect.py:244). There is no batch upload path.
- In `update_nodes`, one `try` wraps both loops. So the first request that raises ends all remaining work (collect.py:254-283). A failed request does not just skip one entity.
- The edge update sends the wrong fields. See Findings.

## Model

| member | source | states |
|---|---|---|
| PyDict.SetItem | tempo_trace_aggregation/collect.py:140 | assigning an existing key keeps its place; a new key goes last; the map gets the value |
| PyDict.Values | tempo_trace_aggregation/collect.py:220 | `list(d.values())` lists the values in insertion order, one per key |
| PyDict.EmptyIffNoKeys | tempo_trace_aggregation/collect.py:202 | a dict is falsy exactly when it has no keys |
| PyDict.ItemsAppend | tempo_trace_aggregation/logging.py:112-113 | setting a new key adds its item at the end of `items()` |
| Graph.NewNode | tempo_trace_aggregation/collect.py:56-65 | a new node has the given id, title and sub-title, zero counters, role "", and is passed and healthy |
| Graph.Observe | tempo_trace_aggregation/collect.py:171-181 | one span: the count goes up by one; the latency follows the code's recurrence; the node is failed exactly when the latency is over 40.0; exactly one arc is 1.0; the identity is unchanged |
| Graph.EdgeKeyInjective | tempo_trace_aggregation/collect.py:209-211 | between a digest source and any target, the counting key `source#target` determines both ends |
| Graph.GetId | tempo_trace_aggregation/collect.py:90-91 | definition: `source:target`; properties in `Graph.GetIdSplits` and `Graph.GetIdInjective` |
| Graph.GetIdSplits | tempo_trace_aggregation/collect.py:90-91 | `get_id` of an edge from a digest splits back into source and target at position 32 |
| Graph.GetIdInjective | tempo_trace_aggregation/collect.py:90-91 | two edges from digests with the same `get_id` join the same two nodes |
| Serialise.ParamsOfVals | tempo_trace_aggregation/collect.py:67-73 | the serialiser dict has exactly the attributes not skipped, each as `str()` renders it |
| Serialise.ParamsOfHas | tempo_trace_aggregation/collect.py:67-80 | a key is in the serialiser dict exactly when it is an attribute name other than the skipped one |
| Serialise.ParamsOfAt | tempo_trace_aggregation/collect.py:67-80 | each attribute not skipped is sent under its name as `str()` renders it |
| Serialise.ParamsOfKeys | tempo_trace_aggregation/collect.py:67-80 | the keys, in insertion order, are the attribute names in `__dict__` order with the skipped one filtered out |
| Serialise.KeptNodeFields | tempo_trace_aggregation/collect.py:67-73 | filtering `id` out of the node's field names leaves the seven fields `to_params` sends, in order |
| Serialise.StrParams | tempo_trace_aggregation/collect.py:67-73 | the shared loop over `__dict__.items()` builds the serialiser dict |
| Serialise.NodeAttributesNamed | tempo_trace_aggregation/collect.py:56-65 | every node field appears in `__dict__` with its value; edge-only names do not appear |
| Serialise.EdgeAttributesNamed | tempo_trace_aggregation/collect.py:84-88 | every edge field appears in `__dict__` with its value; node-only names do not appear |
| Serialise.NodeParamsField | tempo_trace_aggregation/collect.py:67-73 | `to_params` sends a field exactly when it is a node field other than `id`, with its `str()` |
| Serialise.NodeParamsWithIdField | tempo_trace_aggregation/collect.py:75-80 | `to_params_id` sends exactly the node fields, `id` included, with their `str()` |
| Serialise.EdgeParamsField | tempo_trace_aggregation/collect.py:93-98 | `Edge.to_params` sends exactly the four edge fields, with their `str()` |
| Serialise.NodeParamsKeys | tempo_trace_aggregation/collect.py:67-73 | `to_params` keys: the seven non-id node fields in declaration order |
| Serialise.NodeParamsWithIdKeys | tempo_trace_aggregation/collect.py:75-80 | `to_params_id` keys: all eight node fields in declaration order |
| Serialise.ParamsWithIdExtendsParams | tempo_trace_aggregation/collect.py:67-80 | `to_params_id` is `to_params` with `id` added, and `to_params` has no `id` |
| Serialise.ParamsWithIdKeyOrder | tempo_trace_aggregation/collect.py:56-80 | `id` comes fourth in `to_params_id`, after `detail__role` |
| Serialise.EdgeParamsKeys | tempo_trace_aggregation/collect.py:84-98 | `Edge.to_params` keys: source, target, mainStat, secondaryStat |
| Serialise.ToParams | tempo_trace_aggregation/collect.py:67-73 | `Node.to_params` returns the node's params dict |
| Serialise.ToParamsId | tempo_trace_aggregation/collect.py:75-80 | `Node.to_params_id` returns the node's params dict with id |
| Serialise.EdgeToParams | tempo_trace_aggregation/collect.py:93-98 | `Edge.to_params` returns the edge's params dict |
| Tempo.ApiCall | tempo_trace_aggregation/collect.py:224-234 | data comes back exactly for a 200 reply whose body parses to a non-empty value; a connection failure, another status, an unparsable or a falsy body give "empty" |
| Aggregate.ServiceId | tempo_trace_aggregation/collect.py:134 | definition: the digest of `{tag}##service`; properties in `Aggregate.ServiceNodeTitle` and `Collect.ServiceEdge` |
| Aggregate.NodeId | tempo_trace_aggregation/collect.py:162 | definition: the digest of `service##name`; properties in `Aggregate.FoldTagsNodes` and `Aggregate.FoldItemsTitles` |
| Aggregate.Init | tempo_trace_aggregation/collect.py:119-121 | the three dicts start empty and well formed |
| Aggregate.AddServiceNode | tempo_trace_aggregation/collect.py:133-144 | the service node exists afterwards; if it was already there nothing changes; otherwise it is appended with the tag value as title and "Trace ingress" as sub-title, the service id's `span_to_node` set (created if missing) gains the service node, every other `span_to_node` entry and `node_span_parent` stay as they were |
| Aggregate.CountSpan | tempo_trace_aggregation/collect.py:162-181 | find or create the span's node (which then takes service and name as titles); it becomes that node after `Graph.Observe` of the span's start and end times: count up by one, latency by the code's recurrence, health re-classified; every other node is unchanged |
| Aggregate.BumpService | tempo_trace_aggregation/collect.py:183-184 | the service node's count goes up by one; nothing else changes |
| Aggregate.RecordParentAt | tempo_trace_aggregation/collect.py:187-194 | the span's parent is added to its node's set, created if missing; other nodes keep theirs |
| Aggregate.RecordParentKeeps | tempo_trace_aggregation/collect.py:187-194 | recorded parents are never lost, and only nodes get parents |
| Aggregate.RecordSpan | tempo_trace_aggregation/collect.py:196-198 | raises `KeyError` on the span id exactly when the node id is a key and the span id is not; otherwise it resets or extends the span id's set |
| Aggregate.RecordSpanBounded | tempo_trace_aggregation/collect.py:196-198 | `span_to_node` only maps to nodes |
| Aggregate.SpanUpdate | tempo_trace_aggregation/collect.py:160-198 | one named span keeps the dicts well formed, keeps the service node, and loses no node or parent |
| Aggregate.ItemStep | tempo_trace_aggregation/collect.py:159-198 | a span without `name` changes nothing; a named span raises exactly under the `span_to_node` condition |
| Aggregate.FoldItems | tempo_trace_aggregation/collect.py:147-198 | the walk keeps the dicts well formed and only grows them |
| Aggregate.FoldItemsFailure | tempo_trace_aggregation/collect.py:147-198 | after a `KeyError` the walk does nothing more |
| Aggregate.FoldItemsAppend | tempo_trace_aggregation/collect.py:155-159 | walking two runs of spans is walking one, then the other |
| Aggregate.FlattenAppend | tempo_trace_aggregation/collect.py:147-159 | the nested loops visit the spans of a concatenation in order |
| Aggregate.SpanItems | tempo_trace_aggregation/collect.py:157-159 | every span of a list is walked with its batch's service |
| Aggregate.StepCounts | tempo_trace_aggregation/collect.py:162-184 | one named span adds one to its own node's count, and one to the service node's when `use_tag_as_node`; it creates only its own node |
| Aggregate.FoldItemsCounts | tempo_trace_aggregation/collect.py:162-184 | each node's count grows by exactly its named spans, and the service node's also by every named span; exactly the nodes some named span maps to are created |
| Aggregate.FoldItemsParents | tempo_trace_aggregation/collect.py:187-194 | each node's parent set grows by exactly its spans' `parentSpanId`s; with `use_tag_as_node`, the service node stands in for a missing one |
| Aggregate.ItemStepSpans | tempo_trace_aggregation/collect.py:196-198 | a named span's step writes `span_to_node` exactly as `Aggregate.RecordSpan` says |
| Aggregate.ItemStepParents | tempo_trace_aggregation/collect.py:187-194 | one span adds its parent to its own node's set only |
| Aggregate.ItemStepRecords | tempo_trace_aggregation/collect.py:187-194 | a named span records its parent under its node |
| Aggregate.FoldItemsTitles | tempo_trace_aggregation/collect.py:162-169 | a created node takes title and sub-title from the FIRST span that maps to it |
| Aggregate.TagStep | tempo_trace_aggregation/collect.py:123-146 | one tag value keeps the dicts well formed and only grows them |
| Aggregate.FoldTags | tempo_trace_aggregation/collect.py:123-198 | the tag-value loop keeps the dicts well formed and only grows them |
| Aggregate.FoldTagsCounts | tempo_trace_aggregation/collect.py:123-184 | over the whole walk, each node counts its named spans, and the service node counts every named span |
| Aggregate.TagStepCounts | tempo_trace_aggregation/collect.py:123-184 | one tag value adds its spans to the counts, and creates their nodes and, when accepted with `use_tag_as_node`, the service node |
| Aggregate.FoldTagsNodes | tempo_trace_aggregation/collect.py:123-168 | the nodes created are those some named span maps to, plus the service node once any tag value is accepted |
| Aggregate.FoldTagsParents | tempo_trace_aggregation/collect.py:123-194 | over the whole walk, each node's parent set grows by exactly the parents its spans record |
| Aggregate.TagStepParents | tempo_trace_aggregation/collect.py:123-194 | one tag value adds exactly its spans' parents; creating the service node adds none |
| Aggregate.TagStepParentsAfter | tempo_trace_aggregation/collect.py:123-194 | the last tag value's step of `Aggregate.FoldTagsParents` |
| Aggregate.ParentsOfAppend | tempo_trace_aggregation/collect.py:147-194 | the parents recorded over two runs of spans are those of each run |
| Aggregate.ParentsOfHas | tempo_trace_aggregation/collect.py:187-194 | every span that maps to a node contributes its parent to that node's set |
| Aggregate.ItemsNeedAccepted | tempo_trace_aggregation/collect.py:123-130 | spans are only walked under an accepted tag value |
| Aggregate.ItemStepSelfLinked | tempo_trace_aggregation/collect.py:196-198 | a span whose id is not the service id leaves the service id's `span_to_node` entry, holding the service node, in place |
| Aggregate.FoldItemsSelfLinked | tempo_trace_aggregation/collect.py:147-198 | so does a walk over such spans |
| Aggregate.TagStepSelfLinked | tempo_trace_aggregation/collect.py:133-198 | with `use_tag_as_node`, once the service node exists, the service id maps to it in `span_to_node`, after each tag value |
| Aggregate.FoldTagsSelfLinked | tempo_trace_aggregation/collect.py:123-198 | the same over the whole tag-value loop |
| Aggregate.ServiceParent | tempo_trace_aggregation/collect.py:141-194 | with `use_tag_as_node`, a named span without `parentSpanId` records the service id as its node's parent, and the service id maps to the service node (when no span's own id is the service id) |
| Aggregate.FoldTagsRejected | tempo_trace_aggregation/collect.py:123-130 | tag values that are not accepted change nothing |
| Aggregate.FilterRejectsEverything | tempo_trace_aggregation/collect.py:124-125 | a filter that does not match the tag name leaves every dict empty |
| Aggregate.FoldTagsMatcher | tempo_trace_aggregation/collect.py:124-125 | the result depends on the matcher only through its answer for (filter, tag name) |
| Aggregate.ServiceNodeTitle | tempo_trace_aggregation/collect.py:133-144 | the service node exists and keeps the title of the first accepted tag value and the sub-title "Trace ingress" |
| Aggregate.ServiceNodeCreated | tempo_trace_aggregation/collect.py:133-144 | right after the first accepted tag value the service node exists, titled with that value, sub-titled "Trace ingress" |
| Aggregate.FirstAccepted | tempo_trace_aggregation/collect.py:123-146 | the tag values before the first accepted one do nothing; the walk so far is the service node's creation and that value's spans |
| Aggregate.FoldTagsKeepsNode | tempo_trace_aggregation/collect.py:133-144 | the tag-value loop never drops a node, nor changes its id, title or sub-title |
| Aggregate.UnnamedSpanIgnored | tempo_trace_aggregation/collect.py:160 | removing a span without `name` leaves the result unchanged |
| Aggregate.ExcludedTraceIgnored | tempo_trace_aggregation/collect.py:148-154 | removing a trace without `rootTraceName`, or one whose fetch is empty, leaves the spans walked unchanged |
| Aggregate.EmptySearchIgnored | tempo_trace_aggregation/collect.py:126-130 | removing a tag value whose search is empty leaves the result unchanged; such a value does not even create the service node |
| Edges.LinkedBy | tempo_trace_aggregation/collect.py:203-212 | a parent span id of t that maps to s is a link from s to t, so their edge counts at least one |
| Edges.CountLink | tempo_trace_aggregation/collect.py:206-212 | find or create the edge under `source#target`, then add one to its count; the edge-dict invariant holds with the link counted |
| Edges.CountParent | tempo_trace_aggregation/collect.py:205-212 | one count for every node the parent span id maps to |
| Edges.CountTarget | tempo_trace_aggregation/collect.py:204-212 | raises exactly when some parent of the target is unknown to `span_to_node`, naming one of them; otherwise counts every link to the target |
| Edges.WfHexSources | tempo_trace_aggregation/collect.py:162 | every node id `span_to_node` maps to is a digest |
| Edges.DeriveEdges | tempo_trace_aggregation/collect.py:201-212 | raises `KeyError` exactly when a recorded parent span id is unknown to `span_to_node`, with such an id; otherwise the edge dict counts every link once |
| Edges.KeyCountIsLinkCount | tempo_trace_aggregation/collect.py:209-212 | an edge key's count is the number of parent span ids of the target that map to the source |
| Edges.EdgeFor | tempo_trace_aggregation/collect.py:201-212 | the edge from s to t exists exactly when a parent span id of t maps to s; its mainStat is the number of such ids, and its secondaryStat is 0 |
| Edges.EdgeHeld | tempo_trace_aggregation/collect.py:206-212 | every edge held is from a digest, filed under its own key, with a positive count |
| Collect.WalkSpans | tempo_trace_aggregation/collect.py:159-198 | the span loop computes the walk of its spans, stopping at the first `KeyError` |
| Collect.WalkLibs | tempo_trace_aggregation/collect.py:158-198 | the instrumentation-library loop computes the walk of its spans |
| Collect.WalkBatches | tempo_trace_aggregation/collect.py:155-198 | the batch loop computes the walk, each batch's spans with its service |
| Collect.WalkTraces | tempo_trace_aggregation/collect.py:147-198 | the trace loop skips traces without `rootTraceName` and empty fetches, and walks the rest |
| Collect.WalkTags | tempo_trace_aggregation/collect.py:123-198 | the tag-value loop computes the fold over the tag values |
| Collect.Walk | tempo_trace_aggregation/collect.py:113-198 | the dicts after the whole tag-value walk are well formed: every node is filed under its own digest id, counts are non-negative, health agrees with latency, and `span_to_node` and `node_span_parent` only name nodes |
| Collect.ServiceEdge | tempo_trace_aggregation/collect.py:141-212 | with `use_tag_as_node`, a named span without `parentSpanId` links the service node to its node: the link exists, their edge's count is at least one, and any edge list complete for the dicts (as `Collect.Execute` returns) holds that edge |
| Collect.EdgesResult | tempo_trace_aggregation/collect.py:201-220 | the listed edges are exactly the linked pairs, each counted once per parent span id, with distinct `get_id`s; the list is empty exactly when nothing is linked |
| Collect.Execute | tempo_trace_aggregation/collect.py:110-222 | all-or-nothing result; an empty tag-values reply gives `([], [])`; a walk `KeyError` propagates; with nodes, raises exactly on an unknown parent span id, and otherwise returns all nodes in order with exactly the linked edges, or `([], [])` when nothing is linked |
| Sync.NodesFoldStopped | tempo_trace_aggregation/collect.py:254-283 | after a request raises, the node loop sends nothing more |
| Sync.EdgesFoldStopped | tempo_trace_aggregation/collect.py:268-283 | after a request raises, the edge loop sends nothing more |
| Sync.NodesFoldExtends | tempo_trace_aggregation/collect.py:255-266 | the node loop only appends requests |
| Sync.EdgesFoldExtends | tempo_trace_aggregation/collect.py:268-280 | the edge loop only appends requests |
| Sync.DeleteFirst | tempo_trace_aggregation/collect.py:242-251 | the first request is always the body-less delete-all POST, whether or not it succeeds |
| Sync.DeleteGraph | tempo_trace_aggregation/collect.py:242-248 | definition: the body-less POST to `delete-all`; properties in `Sync.DeleteFirst` |
| Sync.NodeStep | tempo_trace_aggregation/collect.py:255-266 | definition: one pass of the node loop; properties in `Sync.NodeStepSyncs` and `Sync.NodeStepSends` |
| Sync.EdgeStep | tempo_trace_aggregation/collect.py:268-280 | definition: one pass of the edge loop, with the PUT's params left as a choice (`Sync.EdgePut`); properties in `Sync.EdgeStepSyncs` and `Sync.EdgeStepSends` |
| Sync.Update | tempo_trace_aggregation/collect.py:250-287 | definition: the delete, the node loop, then the edge loop; with `Sync.AsWritten` it is the code as written; properties in `Sync.DeleteFirst`, `Sync.UpdateAsWrittenStopsAtRefusal`, `Sync.EdgeUpdateSendsNodeParams`, `Sync.EdgeUpdateWithoutNodes`, and with the edge PUT corrected in `Sync.UpdateCovers` |
| Sync.AsWritten | tempo_trace_aggregation/collect.py:275-278 | definition: the edge PUT takes the last node's params, as the code has it |
| Sync.UpdateStopsAtRefusal | tempo_trace_aggregation/collect.py:250-283 | with the edge PUT corrected (`Sync.OfEdge`): only the last request sent can have raised, and if one did, nothing follows it |
| Sync.UpdateAsWrittenStopsAtRefusal | tempo_trace_aggregation/collect.py:250-283 | the same for the code as written, when there is at least one node |
| Sync.NodeStepSyncs | tempo_trace_aggregation/collect.py:255-264 | with a provider that answers, a node is looked up, then created with `to_params_id` on 404 or updated with `to_params` on 200 |
| Sync.EdgeStepSyncs | tempo_trace_aggregation/collect.py:268-278 | with a provider that answers, an edge is looked up, then created on 404 or updated on 200 with its own params |
| Sync.NodesCovered | tempo_trace_aggregation/collect.py:255-266 | with a provider that answers, every node is synced |
| Sync.EdgesCovered | tempo_trace_aggregation/collect.py:268-280 | with the edge PUT corrected, and a provider that answers, every edge is synced |
| Sync.UpdateCovers | tempo_trace_aggregation/collect.py:250-280 | with the edge PUT corrected, and a provider that answers, nothing stops, and every node and every edge is synced |
| Sync.NodesFoldSends | tempo_trace_aggregation/collect.py:255-266 | the node loop sends only requests about the given nodes |
| Sync.NodeStepSends | tempo_trace_aggregation/collect.py:255-266 | one pass of the node loop sends only the GET, POST or PUT of its own node |
| Sync.EdgesFoldSends | tempo_trace_aggregation/collect.py:268-280 | with the edge PUT corrected, the edge loop sends only requests about the given edges |
| Sync.EdgeStepSends | tempo_trace_aggregation/collect.py:268-280 | one pass of the edge loop, with the edge's own params, sends only the GET, POST or PUT of its own edge |
| Sync.UpdateSendsOnly | tempo_trace_aggregation/collect.py:242-280 | with the edge PUT corrected, every request sent is the delete, or the GET, POST or PUT of a given node or edge |
| Sync.EdgeUpdateSendsNodeParams | tempo_trace_aggregation/collect.py:275-278 | as written, an edge the provider has is updated with the last node's `to_params` instead of its own params |
| Sync.NodeParamsMissEnds | tempo_trace_aggregation/collect.py:67-73 | a node's `to_params` has neither `source` nor `target` |
| Sync.EdgeParamsNameEnds | tempo_trace_aggregation/collect.py:93-98 | an edge's params carry its own source and target |
| Sync.EdgeUpdateWithoutNodes | tempo_trace_aggregation/collect.py:268-283 | as written, with no nodes, the first edge the provider has raises `UnboundLocalError` after its GET, which ends the loop |
| Sync.UpdateNodes | tempo_trace_aggregation/collect.py:250-287 | sends exactly the requests of the corrected `update_nodes`: the delete, then the node loop and the edge loop, stopping at the first request that raises |
| LogFormat.Plain | tempo_trace_aggregation/logging.py:120-136 | definition: the line for entries none of which raises, entry by entry; properties in `LogFormat.PlainJoined` and `LogFormat.NoneSkipped` |
| LogFormat.LogLine | tempo_trace_aggregation/logging.py:119-138 | definition: the fallback line for the first value that raises, else `LogFormat.Plain`; properties in `LogFormat.FallbackIff`, `LogFormat.FirstErrorIsFirst` and `LogFormat.PlainJoined` |
| LogFormat.Entries | tempo_trace_aggregation/logging.py:123-134 | the rendered entries of the values that are not `None`: empty exactly when every value is `None` |
| LogFormat.PlainJoined | tempo_trace_aggregation/logging.py:120-135 | for every dict whose values do not raise, the line is the entries of the non-`None` values joined by single spaces, with one space in front exactly when the first value is `None` and a later one is not |
| LogFormat.PlainJoinedStep | tempo_trace_aggregation/logging.py:122-135 | the inductive step of `LogFormat.PlainJoined` |
| LogFormat.ShownStep | tempo_trace_aggregation/logging.py:123-135 | that step when the new value is shown |
| LogFormat.Format | tempo_trace_aggregation/logging.py:119-138 | `_format` returns the line of the entries in order, or the fallback line for the first value that cannot be inspected |
| LogFormat.CreateFmt | tempo_trace_aggregation/logging.py:110-117 | `_create_fmt` formats the dict with `message` set when a non-empty message is given |
| LogFormat.UnescapeEscape | tempo_trace_aggregation/logging.py:128-130 | escaping quotes loses nothing: reading it back gives the value |
| LogFormat.EscapedQuotes | tempo_trace_aggregation/logging.py:128-130 | every quote inside an escaped value follows a backslash |
| LogFormat.UnescapePlain | tempo_trace_aggregation/logging.py:131-134 | a value without quotes is written as it is |
| LogFormat.QuoteRoundTrip | tempo_trace_aggregation/logging.py:127-134 | every rendered string value reads back as the value |
| LogFormat.FallbackIff | tempo_trace_aggregation/logging.py:122-138 | the line falls back exactly when some value cannot be inspected |
| LogFormat.FirstErrorIsFirst | tempo_trace_aggregation/logging.py:122-138 | the fallback line reports the error of the first such value |
| LogFormat.NoneSkipped | tempo_trace_aggregation/logging.py:124-135 | a `None` value after the first entry leaves no trace in the line |
| LogFormat.LeadingNone | tempo_trace_aggregation/logging.py:121-135 | an instance of `LogFormat.PlainJoined`: a `None` first entry makes the next entry start with a space |
| LogFormat.MessageAppended | tempo_trace_aggregation/logging.py:110-114 | with no `message` key, the message becomes the last entry |
| LogFormat.MessageReplaced | tempo_trace_aggregation/logging.py:112-113 | with a `message` key, the message replaces its value in place |
| LogFormat.NoMessage | tempo_trace_aggregation/logging.py:110-117 | without a message, or with an empty one, the dict is formatted as is |

## Left out

- HTTP, JSON text and headers: the backends are functions from request to reply (`Tempo.Backend`, `Sync.Net`). `RestConnection.get_headers` and the JSON encoding of bodies are not modelled. A request's body is the dict it serialises.
- `time.time()` and the log calls of `execute`, `_api_call`, `delete_graph` and `update_nodes`: they only log. The `finally` block of `update_nodes` only logs.
- MD5, `re.search` and `str()` of a float are parameters. MD5 is trusted to return 32 lowercase hex digits. Float arithmetic is modelled on reals.
- Data-shape errors (a missing `tagValues`, `batches`, `spanId` or resource attribute; a non-numeric time): the typed backend data always has the fields the code indexes.
- Collect.Execute: the order of the returned edge list is not stated, because the code iterates Python sets, whose order is not defined. The model leaves that choice open, and the contract holds for every choice.
- Edges.DeriveEdges: which unknown parent span id is reported is not stated when there are several, for the same reason.
- Sync.UpdateNodes: models `update_nodes` with the edge PUT corrected to the edge's own params. The code as written is `Sync.Update` with `Sync.AsWritten`; see Findings.
- Log values that are lists, dicts or other containers are not modelled; they support `in` without raising. Only string and missing messages are modelled, not the truthiness of other message values.
- `Log`'s other methods, `configure_logger` and the timestamp formatter: `Log` is not part of this model beyond `_format` and `_create_fmt`.
- `__main__.py`, the scheduler loop and configuration loading are not part of this model.

## Findings

| source | as written | input that shows it | evidently intended | confidence | as-written member | corrected member |
|---|---|---|---|---|---|---|
| tempo_trace_aggregation/collect.py:275-278 | the PUT that updates an existing edge sends `node.to_params()`, the last node of the node loop | one node n and one edge e; the GET of e answers 200; the PUT sends n's seven node fields and no `source` or `target` | `params=edge.to_params()` | not executed | Sync.EdgeUpdateSendsNodeParams | Sync.UpdateNodes |
| tempo_trace_aggregation/collect.py:268-283 | with an empty node list, reading `node` in the edge PUT raises `UnboundLocalError`, and the `except` swallows it, ending the edge loop | no nodes and one edge e whose GET answers 200: the GET is sent and nothing after it | every edge the provider has is updated with its own params | not executed | Sync.EdgeUpdateWithoutNodes | Sync.UpdateNodes |

`Sync.UpdateNodes` sends exactly the requests of `Sync.Update` with the edge
PUT corrected. `Sync.UpdateCovers`, `Sync.EdgeStepSyncs` and
`Sync.EdgeParamsNameEnds` prove what the corrected version does: with a
provider that answers, every edge is updated with its own source and target.
