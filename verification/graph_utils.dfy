/** The client-side merge `expandGraph`: folds the graph returned by the
    expansion endpoint into the graph on screen. New nodes are added by id and
    new edges by their (source, target) pair; a node present on both sides
    keeps its introductions and gains the incoming ones whose
    (author, subject) it does not have yet, while its other fields are
    overwritten; an edge present on both sides is replaced when its data
    differ. When nothing changed the result is no graph and an informational
    message. */
module GraphUtils {
  import opened Collections
  import opened GraphTypes

  const ServerErrorMessage := "サーバーエラーが発生しました。"
  const NoIntroductionSuffix := "さんはまだ誰も紹介していないみたい"
  const UnknownUserName := "このユーザー"

  datatype SnackbarKind = Info | Error
  datatype Snackbar = Snackbar(message: string, kind: SnackbarKind)

  /** `{ updatedGraphData, snackbar? }`. */
  datatype ExpandOutcome = ExpandOutcome(updatedGraphData: Option<GraphData>, snackbar: Option<Snackbar>)

  /** What `fetch('/expandGraph', ...)` produced: a response that is not ok,
      or an ok one whose JSON body carries `graphData`. */
  datatype Response = NotOk | Ok(graphData: GraphData)

  // ---------------------------------------------------------------------------
  // Nodes and edges to add

  function IsNewNode(ids: set<Option<Value>>): GraphNode -> bool
  {
    n => NodeId(n) !in ids
  }

  /** `nodesToAdd`: the incoming nodes whose id the current graph lacks, in incoming order. */
  function NodesToAdd(current: seq<GraphNode>, incoming: seq<GraphNode>): (r: seq<GraphNode>)
    ensures forall n :: n in r <==> n in incoming && NodeId(n) !in NodeIds(current)
  {
    Filter(incoming, IsNewNode(NodeIds(current)))
  }

  function IsNewEdge(keys: set<(string, string)>): GraphEdge -> bool
  {
    e => EdgeKey(e) !in keys
  }

  /** `edgesToAdd`: the incoming edges whose (source, target) pair the current graph lacks. */
  function EdgesToAdd(current: seq<GraphEdge>, incoming: seq<GraphEdge>): (r: seq<GraphEdge>)
    ensures forall e :: e in r <==> e in incoming && EdgeKey(e) !in EdgeKeys(current)
  {
    Filter(incoming, IsNewEdge(EdgeKeys(current)))
  }

  /** The key the source actually builds for an edge: the string `${source}-${target}`. */
  function EdgeKeyAsWritten(e: GraphEdge): (key: string)
  {
    e.source + "-" + e.target
  }

  /** `edgesToAdd` with the string key as written. Two different pairs can
      produce the same string when an identity contains '-'. */
  function IsNewEdgeAsWritten(current: seq<GraphEdge>): GraphEdge -> bool
  {
    e => EdgeKeyAsWritten(e) !in (set c | c in current :: EdgeKeyAsWritten(c))
  }

  function EdgesToAddAsWritten(current: seq<GraphEdge>, incoming: seq<GraphEdge>): (r: seq<GraphEdge>)
    ensures forall e :: e in r <==> e in incoming && !exists c :: c in current && EdgeKeyAsWritten(c) == EdgeKeyAsWritten(e)
  {
    Filter(incoming, IsNewEdgeAsWritten(current))
  }

  // ---------------------------------------------------------------------------
  // Matched nodes

  /** Two introductions are the same one when author and subject agree. */
  predicate SameIntro(a: Introduction, b: Introduction)
  {
    a.author == b.author && a.subject == b.subject
  }

  /** `existingIntros.some(...)`: some existing introduction has the key of `x`. */
  predicate Known(existing: seq<Introduction>, x: Introduction)
  {
    exists e :: e in existing && SameIntro(e, x)
  }

  function IsUnknownIntro(existing: seq<Introduction>): Introduction -> bool
  {
    x => !Known(existing, x)
  }

  /** `combinedIntros`: every existing introduction, unchanged and in order,
      followed by the incoming ones whose key no EXISTING introduction has. */
  function CombinedIntros(existing: seq<Introduction>, incoming: seq<Introduction>): (r: seq<Introduction>)
    ensures |existing| <= |r| && r[..|existing|] == existing
    ensures forall x :: x in r[|existing|..] <==> x in incoming && !Known(existing, x)
  {
    var added := Filter(incoming, IsUnknownIntro(existing));
    assert (existing + added)[|existing|..] == added;
    existing + added
  }

  /** The `newIntros.forEach` loop: pushes each incoming introduction whose key
      no existing introduction has, and reports whether it pushed any. */
  method CombineIntros(existing: seq<Introduction>, incoming: seq<Introduction>)
    returns (combined: seq<Introduction>, updated: bool)
    ensures combined == CombinedIntros(existing, incoming)
    ensures updated <==> |combined| > |existing|
  {
    combined := existing;
    updated := false;
    var j := 0;
    while j < |incoming|
      invariant 0 <= j <= |incoming|
      invariant combined == existing + Filter(incoming[..j], IsUnknownIntro(existing))
      invariant updated <==> |combined| > |existing|
    {
      var x := incoming[j];
      FilterSnoc(incoming[..j], x, IsUnknownIntro(existing));
      assert incoming[..j + 1] == incoming[..j] + [x];
      if !Known(existing, x) {
        combined := combined + [x];
        updated := true;
      }
      j := j + 1;
    }
    assert incoming[..j] == incoming;
  }

  /** `{ ...node.data, ...newNodeData.data, introductions: combinedIntros }`. */
  function MergedData(base: map<string, Value>, over: map<string, Value>, combined: seq<Introduction>)
    : (r: map<string, Value>)
    ensures r.Keys == base.Keys + over.Keys + {"introductions"}
    ensures r["introductions"] == Intros(combined)
    ensures forall k :: k in over && k != "introductions" ==> r[k] == over[k]
    ensures forall k :: k in base && k !in over && k != "introductions" ==> r[k] == base[k]
  {
    (base + over)["introductions" := Intros(combined)]
  }

  function HasId(id: Option<Value>): GraphNode -> bool
  {
    n => NodeId(n) == id
  }

  /** `newGraphData.graphData.nodes.find(n => n.data.id === node.data.id)`. */
  function Counterpart(n: GraphNode, incoming: seq<GraphNode>): (m: Option<GraphNode>)
  {
    Find(incoming, HasId(NodeId(n)))
  }

  /** One step of `updatedNodes`: a node without an incoming counterpart is kept;
      one with a counterpart gets the merged data. Its id never changes. */
  function UpdateNode(n: GraphNode, incoming: seq<GraphNode>): (r: GraphNode)
    ensures NodeId(r) == NodeId(n)
    ensures Counterpart(n, incoming).None? ==> r == n
    ensures Counterpart(n, incoming).Some? ==>
      |IntrosOf(n)| <= |IntrosOf(r)| && IntrosOf(r)[..|IntrosOf(n)|] == IntrosOf(n)
    ensures Counterpart(n, incoming).Some? ==>
      var m := Counterpart(n, incoming).value;
      r.data == MergedData(n.data, m.data, CombinedIntros(IntrosOf(n), IntrosOf(m)))
  {
    match Counterpart(n, incoming)
    case None => n
    case Some(m) =>
      var combined := CombinedIntros(IntrosOf(n), IntrosOf(m));
      var r := GraphNode(MergedData(n.data, m.data, combined));
      assert IntrosOf(r) == combined;
      r
  }

  /** A matched node gains an introduction (the node's part of `introductionsUpdated`). */
  predicate GainsIntros(n: GraphNode, incoming: seq<GraphNode>)
  {
    match Counterpart(n, incoming)
    case None => false
    case Some(m) => |CombinedIntros(IntrosOf(n), IntrosOf(m))| > |IntrosOf(n)|
  }

  /** `updatedNodes`: each current node through `UpdateNode`, in order. */
  function UpdatedNodes(current: seq<GraphNode>, incoming: seq<GraphNode>): (r: seq<GraphNode>)
    ensures |r| == |current|
    ensures forall k :: 0 <= k < |r| ==> r[k] == UpdateNode(current[k], incoming)
    decreases |current|
  {
    if |current| == 0 then []
    else UpdatedNodes(current[..|current| - 1], incoming) + [UpdateNode(current[|current| - 1], incoming)]
  }

  predicate IntroductionsUpdated(current: seq<GraphNode>, incoming: seq<GraphNode>)
  {
    exists n :: n in current && GainsIntros(n, incoming)
  }

  lemma NodesStep(current: seq<GraphNode>, i: nat, incoming: seq<GraphNode>)
    requires i < |current|
    ensures UpdatedNodes(current[..i + 1], incoming) == UpdatedNodes(current[..i], incoming) + [UpdateNode(current[i], incoming)]
    ensures IntroductionsUpdated(current[..i + 1], incoming)
      == (IntroductionsUpdated(current[..i], incoming) || GainsIntros(current[i], incoming))
  {
    var done, n := current[..i], current[i];
    assert current[..i + 1] == done + [n];
    assert (done + [n])[..|done|] == done;
    assert forall m :: m in done + [n] <==> m in done || m == n;
  }

  // ---------------------------------------------------------------------------
  // Matched edges

  function SameEnds(e: GraphEdge): GraphEdge -> bool
  {
    (c: GraphEdge) => c.source == e.source && c.target == e.target
  }

  /** One step of `updatedEdges`: an edge whose incoming counterpart has
      different data takes the spread of both data objects; otherwise it is
      kept as it is. Its endpoints never change. */
  function UpdateEdge(e: GraphEdge, incoming: seq<GraphEdge>): (r: GraphEdge)
    ensures EdgeKey(r) == EdgeKey(e)
    ensures r != e ==> exists c :: c in incoming && EdgeKey(c) == EdgeKey(e) && c != e
    ensures Find(incoming, SameEnds(e)).None? || Find(incoming, SameEnds(e)).value == e ==> r == e
    ensures Find(incoming, SameEnds(e)).Some? && Find(incoming, SameEnds(e)).value != e ==>
      var c := Find(incoming, SameEnds(e)).value;
      && r.extra.Keys == e.extra.Keys + c.extra.Keys
      && (forall k :: k in c.extra ==> r.extra[k] == c.extra[k])
      && (forall k :: k in e.extra && k !in c.extra ==> r.extra[k] == e.extra[k])
  {
    match Find(incoming, SameEnds(e))
    case None => e
    case Some(c) => if c != e then GraphEdge(e.source, e.target, e.extra + c.extra) else e
  }

  /** The edge's part of `edgesUpdated`: its counterpart's data differ. */
  predicate EdgeChanged(e: GraphEdge, incoming: seq<GraphEdge>)
  {
    match Find(incoming, SameEnds(e))
    case None => false
    case Some(c) => c != e
  }

  /** `updatedEdges`: each current edge through `UpdateEdge`, in order. */
  function UpdatedEdges(current: seq<GraphEdge>, incoming: seq<GraphEdge>): (r: seq<GraphEdge>)
    ensures |r| == |current|
    ensures forall k :: 0 <= k < |r| ==> r[k] == UpdateEdge(current[k], incoming)
    decreases |current|
  {
    if |current| == 0 then []
    else UpdatedEdges(current[..|current| - 1], incoming) + [UpdateEdge(current[|current| - 1], incoming)]
  }

  predicate EdgesUpdated(current: seq<GraphEdge>, incoming: seq<GraphEdge>)
  {
    exists e :: e in current && EdgeChanged(e, incoming)
  }

  lemma EdgesStep(current: seq<GraphEdge>, i: nat, incoming: seq<GraphEdge>)
    requires i < |current|
    ensures UpdatedEdges(current[..i + 1], incoming) == UpdatedEdges(current[..i], incoming) + [UpdateEdge(current[i], incoming)]
    ensures EdgesUpdated(current[..i + 1], incoming) == (EdgesUpdated(current[..i], incoming) || EdgeChanged(current[i], incoming))
  {
    var done, e := current[..i], current[i];
    assert current[..i + 1] == done + [e];
    assert (done + [e])[..|done|] == done;
    assert forall c :: c in done + [e] <==> c in done || c == e;
  }

  // ---------------------------------------------------------------------------
  // The merge

  /** The field is present and a non-empty string, so JavaScript's `||` takes it. */
  predicate NonEmptyStr(d: map<string, Value>, key: string)
  {
    key in d && d[key].Str? && d[key].s != ""
  }

  /** `tappedNode?.data.name || tappedNode?.data.handle || 'このユーザー'`. */
  function TappedName(current: seq<GraphNode>, did: string): (name: string)
    ensures name != ""
    ensures Find(current, HasId(Some(Str(did)))).None? ==> name == UnknownUserName
    ensures Find(current, HasId(Some(Str(did)))).Some? ==>
      var d := Find(current, HasId(Some(Str(did)))).value.data;
      && (NonEmptyStr(d, "name") ==> name == d["name"].s)
      && (!NonEmptyStr(d, "name") && NonEmptyStr(d, "handle") ==> name == d["handle"].s)
      && (!NonEmptyStr(d, "name") && !NonEmptyStr(d, "handle") ==> name == UnknownUserName)
  {
    match Find(current, HasId(Some(Str(did))))
    case None => UnknownUserName
    case Some(n) =>
      if NonEmptyStr(n.data, "name") then n.data["name"].s
      else if NonEmptyStr(n.data, "handle") then n.data["handle"].s
      else UnknownUserName
  }

  /** src/lib/graphUtils.ts:29-90, given the incoming edges to add: the no-change check with
      its snackbar, else the updated graph followed by what is added. */
  function MergeWith(did: string, current: GraphData, incoming: GraphData, edgesToAdd: seq<GraphEdge>): (outcome: ExpandOutcome)
  {
    var nodesToAdd := NodesToAdd(current.nodes, incoming.nodes);
    var introductionsUpdated := IntroductionsUpdated(current.nodes, incoming.nodes);
    var edgesUpdated := EdgesUpdated(current.edges, incoming.edges) || |edgesToAdd| > 0;
    if |nodesToAdd| == 0 && |edgesToAdd| == 0 && !introductionsUpdated && !edgesUpdated then
      ExpandOutcome(None, Some(Snackbar(TappedName(current.nodes, did) + NoIntroductionSuffix, Info)))
    else
      var updatedNodes := UpdatedNodes(current.nodes, incoming.nodes);
      var updatedEdges := UpdatedEdges(current.edges, incoming.edges);
      if |nodesToAdd| > 0 || |edgesToAdd| > 0 then
        ExpandOutcome(Some(GraphData(updatedNodes + nodesToAdd, updatedEdges + edgesToAdd)), None)
      else
        ExpandOutcome(Some(GraphData(updatedNodes, updatedEdges)), None)
  }

  /** The merge of an incoming graph into the current one, an edge being new
      when no current edge has its (source, target) pair. */
  function Merge(did: string, current: GraphData, incoming: GraphData): (outcome: ExpandOutcome)
  {
    MergeWith(did, current, incoming, EdgesToAdd(current.edges, incoming.edges))
  }

  /** The merge as written, an edge being new when no current edge has its
      `source-target` string key. */
  function MergeAsWritten(did: string, current: GraphData, incoming: GraphData): (outcome: ExpandOutcome)
    ensures outcome.updatedGraphData.None? <==>
      && NodesToAdd(current.nodes, incoming.nodes) == []
      && EdgesToAddAsWritten(current.edges, incoming.edges) == []
      && !IntroductionsUpdated(current.nodes, incoming.nodes)
      && !EdgesUpdated(current.edges, incoming.edges)
    ensures outcome.updatedGraphData.Some? ==>
      var edges := outcome.updatedGraphData.value.edges;
      && |current.edges| <= |edges|
      && forall e :: e in edges[|current.edges|..] <==>
           e in incoming.edges && !exists c :: c in current.edges && EdgeKeyAsWritten(c) == EdgeKeyAsWritten(e)
  {
    MergeWith(did, current, incoming, EdgesToAddAsWritten(current.edges, incoming.edges))
  }

  /** The whole of `expandGraph`, the fetch being replaced by its response. */
  function ExpandResult(did: string, response: Response, current: GraphData): (outcome: ExpandOutcome)
  {
    match response
    case NotOk => ExpandOutcome(None, Some(Snackbar(ServerErrorMessage, Error)))
    case Ok(incoming) => Merge(did, current, incoming)
  }

  /** `currentGraphData.nodes.map(...)` (src/lib/graphUtils.ts:40-57), together with the
      `introductionsUpdated` flag its callback sets. */
  method UpdateAllNodes(current: seq<GraphNode>, incoming: seq<GraphNode>)
    returns (updatedNodes: seq<GraphNode>, introductionsUpdated: bool)
    ensures updatedNodes == UpdatedNodes(current, incoming)
    ensures introductionsUpdated == IntroductionsUpdated(current, incoming)
  {
    updatedNodes := [];
    introductionsUpdated := false;
    var i := 0;
    while i < |current|
      invariant 0 <= i <= |current|
      invariant updatedNodes == UpdatedNodes(current[..i], incoming)
      invariant introductionsUpdated == IntroductionsUpdated(current[..i], incoming)
    {
      var next, gained := UpdateOneNode(current[i], incoming);
      if gained {
        introductionsUpdated := true;
      }
      NodesStep(current, i, incoming);
      updatedNodes := updatedNodes + [next];
      i := i + 1;
    }
    assert current[..i] == current;
  }

  /** The callback of that `map` (src/lib/graphUtils.ts:41-56): the updated node, and whether it
      set `introductionsUpdated`. */
  method UpdateOneNode(node: GraphNode, incoming: seq<GraphNode>) returns (next: GraphNode, gained: bool)
    ensures next == UpdateNode(node, incoming)
    ensures gained == GainsIntros(node, incoming)
  {
    var counterpart := Counterpart(node, incoming);
    next := node;
    gained := false;
    if counterpart.Some? {
      var combined;
      combined, gained := CombineIntros(IntrosOf(node), IntrosOf(counterpart.value));
      next := GraphNode(MergedData(node.data, counterpart.value.data, combined));
    }
  }

  /** `currentGraphData.edges.map(...)` (src/lib/graphUtils.ts:59-70), together with the part of
      `edgesUpdated` its callback sets. */
  method UpdateAllEdges(current: seq<GraphEdge>, incoming: seq<GraphEdge>)
    returns (updatedEdges: seq<GraphEdge>, edgesUpdated: bool)
    ensures updatedEdges == UpdatedEdges(current, incoming)
    ensures edgesUpdated == EdgesUpdated(current, incoming)
  {
    updatedEdges := [];
    edgesUpdated := false;
    var i := 0;
    while i < |current|
      invariant 0 <= i <= |current|
      invariant updatedEdges == UpdatedEdges(current[..i], incoming)
      invariant edgesUpdated == EdgesUpdated(current[..i], incoming)
    {
      var next, changed := UpdateOneEdge(current[i], incoming);
      if changed {
        edgesUpdated := true;
      }
      EdgesStep(current, i, incoming);
      updatedEdges := updatedEdges + [next];
      i := i + 1;
    }
    assert current[..i] == current;
  }

  /** The callback of that `map` (src/lib/graphUtils.ts:60-69): the updated edge, and whether it
      set `edgesUpdated`. */
  method UpdateOneEdge(edge: GraphEdge, incoming: seq<GraphEdge>) returns (next: GraphEdge, changed: bool)
    ensures next == UpdateEdge(edge, incoming)
    ensures changed == EdgeChanged(edge, incoming)
  {
    var counterpart := Find(incoming, SameEnds(edge));
    next := edge;
    changed := false;
    if counterpart.Some? && counterpart.value != edge {
      changed := true;
      next := GraphEdge(edge.source, edge.target, edge.extra + counterpart.value.extra);
    }
  }

  /** `expandGraph`, step by step: the two `map` passes with the flags they set,
      then the no-change check and the concatenations. */
  method ExpandGraph(did: string, response: Response, current: GraphData) returns (out: ExpandOutcome)
    ensures response.NotOk? ==> out == ExpandOutcome(None, Some(Snackbar(ServerErrorMessage, Error)))
    ensures out == ExpandResult(did, response, current)
  {
    if response.NotOk? {
      return ExpandOutcome(None, Some(Snackbar(ServerErrorMessage, Error)));
    }
    var incoming := response.graphData;
    var nodesToAdd := NodesToAdd(current.nodes, incoming.nodes);
    var edgesToAdd := EdgesToAdd(current.edges, incoming.edges);

    var updatedNodes, introductionsUpdated := UpdateAllNodes(current.nodes, incoming.nodes);
    var updatedEdges, edgesUpdated := UpdateAllEdges(current.edges, incoming.edges);
    if |edgesToAdd| > 0 {
      edgesUpdated := true;
    }

    if |nodesToAdd| == 0 && |edgesToAdd| == 0 && !introductionsUpdated && !edgesUpdated {
      var nodeName := TappedName(current.nodes, did);
      return ExpandOutcome(None, Some(Snackbar(nodeName + NoIntroductionSuffix, Info)));
    }

    var finalNodes := updatedNodes;
    var finalEdges := updatedEdges;
    if |nodesToAdd| > 0 || |edgesToAdd| > 0 {
      finalNodes := updatedNodes + nodesToAdd;
      finalEdges := updatedEdges + edgesToAdd;
    }
    return ExpandOutcome(Some(GraphData(finalNodes, finalEdges)), None);
  }

  // ---------------------------------------------------------------------------
  // Properties of the merge

  /** The graph on screen once the merge is applied: the updated graph, or the
      current one when the merge returned none. */
  function Shown(current: GraphData, out: ExpandOutcome): (shown: GraphData)
  {
    if out.updatedGraphData.Some? then out.updatedGraphData.value else current
  }

  /** A response that is not ok leaves the graph as it is and reports an error. */
  lemma FailedResponseKeepsGraph(did: string, current: GraphData)
    ensures ExpandResult(did, NotOk, current).updatedGraphData.None?
    ensures ExpandResult(did, NotOk, current).snackbar == Some(Snackbar(ServerErrorMessage, Error))
    ensures Shown(current, ExpandResult(did, NotOk, current)) == current
  {
  }

  /** The outcome of the merge in one statement: no graph and the informational
      message exactly when nothing was added, gained or changed; otherwise the
      updated lists followed by the added ones (which are empty when the
      concatenation is skipped). */
  lemma MergeOutcome(did: string, current: GraphData, incoming: GraphData)
    ensures var out := Merge(did, current, incoming);
      && (out.updatedGraphData.None? <==>
            NodesToAdd(current.nodes, incoming.nodes) == [] && EdgesToAdd(current.edges, incoming.edges) == []
            && !IntroductionsUpdated(current.nodes, incoming.nodes) && !EdgesUpdated(current.edges, incoming.edges))
      && (out.updatedGraphData.None? ==>
            out.snackbar == Some(Snackbar(TappedName(current.nodes, did) + NoIntroductionSuffix, Info)))
      && (out.updatedGraphData.Some? ==>
            out.snackbar.None? &&
            out.updatedGraphData.value == GraphData(
              UpdatedNodes(current.nodes, incoming.nodes) + NodesToAdd(current.nodes, incoming.nodes),
              UpdatedEdges(current.edges, incoming.edges) + EdgesToAdd(current.edges, incoming.edges)))
  {
    var nodesToAdd := NodesToAdd(current.nodes, incoming.nodes);
    var edgesToAdd := EdgesToAdd(current.edges, incoming.edges);
    if |nodesToAdd| == 0 && |edgesToAdd| == 0 {
      assert UpdatedNodes(current.nodes, incoming.nodes) + nodesToAdd == UpdatedNodes(current.nodes, incoming.nodes);
      assert UpdatedEdges(current.edges, incoming.edges) + edgesToAdd == UpdatedEdges(current.edges, incoming.edges);
    }
  }

  /** The graph on screen after the merge is the current one when the merge
      returns no graph (nothing added, no introduction gained, no edge
      changed), and otherwise the updated lists followed by the added ones. */
  lemma ShownAfterMerge(did: string, current: GraphData, incoming: GraphData)
    ensures var out := Merge(did, current, incoming);
      && (out.updatedGraphData.None? ==>
            Shown(current, out) == current
            && NodesToAdd(current.nodes, incoming.nodes) == [] && EdgesToAdd(current.edges, incoming.edges) == [])
      && (out.updatedGraphData.Some? ==>
            Shown(current, out) == GraphData(
              UpdatedNodes(current.nodes, incoming.nodes) + NodesToAdd(current.nodes, incoming.nodes),
              UpdatedEdges(current.edges, incoming.edges) + EdgesToAdd(current.edges, incoming.edges)))
  {
    MergeOutcome(did, current, incoming);
  }

  /** Position by position, the nodes on screen after the merge start with the
      current nodes: same ids, same order, and each keeps its introductions as
      a prefix of its new list. */
  lemma MergeKeepsNodes(did: string, current: GraphData, incoming: GraphData)
    ensures var shown := Shown(current, Merge(did, current, incoming));
      && |current.nodes| <= |shown.nodes|
      && (forall k :: 0 <= k < |current.nodes| ==>
            NodeId(shown.nodes[k]) == NodeId(current.nodes[k])
            && |IntrosOf(current.nodes[k])| <= |IntrosOf(shown.nodes[k])|
            && IntrosOf(shown.nodes[k])[..|IntrosOf(current.nodes[k])|] == IntrosOf(current.nodes[k]))
  {
    ShownAfterMerge(did, current, incoming);
    var out := Merge(did, current, incoming);
    var shown := Shown(current, out);
    if out.updatedGraphData.Some? {
      var updated := UpdatedNodes(current.nodes, incoming.nodes);
      forall k | 0 <= k < |current.nodes|
        ensures shown.nodes[k] == UpdateNode(current.nodes[k], incoming.nodes)
      {
        assert shown.nodes[k] == updated[k];
      }
    }
  }

  /** Position by position, the edges on screen after the merge start with the
      current edges, with the same endpoints in the same order. */
  lemma MergeKeepsEdges(did: string, current: GraphData, incoming: GraphData)
    ensures var shown := Shown(current, Merge(did, current, incoming));
      && |current.edges| <= |shown.edges|
      && (forall k :: 0 <= k < |current.edges| ==> EdgeKey(shown.edges[k]) == EdgeKey(current.edges[k]))
  {
    ShownAfterMerge(did, current, incoming);
    var out := Merge(did, current, incoming);
    var shown := Shown(current, out);
    if out.updatedGraphData.Some? {
      var updated := UpdatedEdges(current.edges, incoming.edges);
      forall k | 0 <= k < |current.edges|
        ensures shown.edges[k] == UpdateEdge(current.edges[k], incoming.edges)
      {
        assert shown.edges[k] == updated[k];
      }
    }
  }

  /** The updated nodes followed by the added ones carry every id of both graphs. */
  lemma UpdatedNodesCoverIds(current: seq<GraphNode>, incoming: seq<GraphNode>)
    ensures var nodes := UpdatedNodes(current, incoming) + NodesToAdd(current, incoming);
      && (forall n :: n in current ==> NodeId(n) in NodeIds(nodes))
      && (forall n :: n in incoming ==> NodeId(n) in NodeIds(nodes))
  {
    var updated := UpdatedNodes(current, incoming);
    var nodes := updated + NodesToAdd(current, incoming);
    forall n | n in current
      ensures NodeId(n) in NodeIds(nodes)
    {
      var k :| 0 <= k < |current| && current[k] == n;
      assert nodes[k] == updated[k];
      assert nodes[k] in nodes;
    }
    forall n | n in incoming && NodeId(n) !in NodeIds(current)
      ensures NodeId(n) in NodeIds(nodes)
    {
      assert n in nodes;
    }
  }

  /** When no node is to be added, the current nodes already carry every incoming id. */
  lemma NothingToAddCoversIds(current: seq<GraphNode>, incoming: seq<GraphNode>)
    requires NodesToAdd(current, incoming) == []
    ensures forall n :: n in incoming ==> NodeId(n) in NodeIds(current)
  {
    forall n | n in incoming
      ensures NodeId(n) in NodeIds(current)
    {
      assert n in NodesToAdd(current, incoming) <==> NodeId(n) !in NodeIds(current);
    }
  }

  /** Nothing is lost and nothing received is missing: every id of the current
      and of the incoming graph is a node id on screen after the merge. */
  lemma MergeLosesNoNode(did: string, current: GraphData, incoming: GraphData)
    ensures var shown := Shown(current, Merge(did, current, incoming));
      && (forall n :: n in current.nodes ==> NodeId(n) in NodeIds(shown.nodes))
      && (forall n :: n in incoming.nodes ==> NodeId(n) in NodeIds(shown.nodes))
  {
    ShownAfterMerge(did, current, incoming);
    if Merge(did, current, incoming).updatedGraphData.Some? {
      UpdatedNodesCoverIds(current.nodes, incoming.nodes);
    } else {
      NothingToAddCoversIds(current.nodes, incoming.nodes);
    }
  }

  /** The updated edges followed by the added ones carry every pair of both graphs. */
  lemma UpdatedEdgesCoverKeys(current: seq<GraphEdge>, incoming: seq<GraphEdge>)
    ensures var edges := UpdatedEdges(current, incoming) + EdgesToAdd(current, incoming);
      && (forall e :: e in current ==> EdgeKey(e) in EdgeKeys(edges))
      && (forall e :: e in incoming ==> EdgeKey(e) in EdgeKeys(edges))
  {
    var updated := UpdatedEdges(current, incoming);
    var edges := updated + EdgesToAdd(current, incoming);
    forall e | e in current
      ensures EdgeKey(e) in EdgeKeys(edges)
    {
      var k :| 0 <= k < |current| && current[k] == e;
      assert edges[k] == updated[k];
      assert edges[k] in edges;
    }
    forall e | e in incoming && EdgeKey(e) !in EdgeKeys(current)
      ensures EdgeKey(e) in EdgeKeys(edges)
    {
      assert e in edges;
    }
  }

  /** When no edge is to be added, the current edges already carry every incoming pair. */
  lemma NothingToAddCoversKeys(current: seq<GraphEdge>, incoming: seq<GraphEdge>)
    requires EdgesToAdd(current, incoming) == []
    ensures forall e :: e in incoming ==> EdgeKey(e) in EdgeKeys(current)
  {
    forall e | e in incoming
      ensures EdgeKey(e) in EdgeKeys(current)
    {
      assert e in EdgesToAdd(current, incoming) <==> EdgeKey(e) !in EdgeKeys(current);
    }
  }

  /** Every (source, target) pair of the current and of the incoming graph is an
      edge on screen after the merge. */
  lemma MergeLosesNoEdge(did: string, current: GraphData, incoming: GraphData)
    ensures var shown := Shown(current, Merge(did, current, incoming));
      && (forall e :: e in current.edges ==> EdgeKey(e) in EdgeKeys(shown.edges))
      && (forall e :: e in incoming.edges ==> EdgeKey(e) in EdgeKeys(shown.edges))
  {
    ShownAfterMerge(did, current, incoming);
    if Merge(did, current, incoming).updatedGraphData.Some? {
      UpdatedEdgesCoverKeys(current.edges, incoming.edges);
    } else {
      NothingToAddCoversKeys(current.edges, incoming.edges);
    }
  }

  /** Concatenating two key-distinct lists whose keys are disjoint keeps the keys distinct. */
  lemma AppendKeepsKeysDistinct<T(!new), K>(a: seq<T>, b: seq<T>, key: T -> K)
    requires DistinctKeys(a, key) && DistinctKeys(b, key)
    requires forall x, y :: x in a && y in b ==> key(x) != key(y)
    ensures DistinctKeys(a + b, key)
  {
    var r := a + b;
    forall i, j | 0 <= i < j < |r|
      ensures key(r[i]) != key(r[j])
    {
      if j < |a| {
        assert r[i] == a[i] && r[j] == a[j];
      } else if i < |a| {
        assert r[i] in a && r[j] in b;
      } else {
        assert r[i] == b[i - |a|] && r[j] == b[j - |a|];
      }
    }
  }

  /** Updated nodes followed by the added ones have distinct ids when both
      lists given to the merge do. */
  lemma UpdatedNodesKeepIdsDistinct(current: seq<GraphNode>, incoming: seq<GraphNode>)
    requires DistinctKeys(current, NodeId) && DistinctKeys(incoming, NodeId)
    ensures DistinctKeys(UpdatedNodes(current, incoming) + NodesToAdd(current, incoming), NodeId)
  {
    var updatedNodes := UpdatedNodes(current, incoming);
    var nodesToAdd := NodesToAdd(current, incoming);
    FilterKeepsKeysDistinct(incoming, IsNewNode(NodeIds(current)), NodeId);
    forall i, j | 0 <= i < j < |updatedNodes|
      ensures NodeId(updatedNodes[i]) != NodeId(updatedNodes[j])
    {
      assert NodeId(updatedNodes[i]) == NodeId(current[i]);
    }
    forall x, y | x in updatedNodes && y in nodesToAdd
      ensures NodeId(x) != NodeId(y)
    {
      var k :| 0 <= k < |updatedNodes| && updatedNodes[k] == x;
      assert current[k] in current;
    }
    AppendKeepsKeysDistinct(updatedNodes, nodesToAdd, NodeId);
  }

  /** Updated edges followed by the added ones have distinct endpoint pairs
      when both lists given to the merge do. */
  lemma UpdatedEdgesKeepKeysDistinct(current: seq<GraphEdge>, incoming: seq<GraphEdge>)
    requires DistinctKeys(current, EdgeKey) && DistinctKeys(incoming, EdgeKey)
    ensures DistinctKeys(UpdatedEdges(current, incoming) + EdgesToAdd(current, incoming), EdgeKey)
  {
    var updatedEdges := UpdatedEdges(current, incoming);
    var edgesToAdd := EdgesToAdd(current, incoming);
    FilterKeepsKeysDistinct(incoming, IsNewEdge(EdgeKeys(current)), EdgeKey);
    forall i, j | 0 <= i < j < |updatedEdges|
      ensures EdgeKey(updatedEdges[i]) != EdgeKey(updatedEdges[j])
    {
      assert EdgeKey(updatedEdges[i]) == EdgeKey(current[i]);
    }
    forall x, y | x in updatedEdges && y in edgesToAdd
      ensures EdgeKey(x) != EdgeKey(y)
    {
      var k :| 0 <= k < |updatedEdges| && updatedEdges[k] == x;
      assert current[k] in current;
    }
    AppendKeepsKeysDistinct(updatedEdges, edgesToAdd, EdgeKey);
  }

  /** A graph whose node ids and edge pairs are unique keeps them unique when
      an incoming graph with unique ids and pairs is merged into it. */
  lemma MergeKeepsKeysDistinct(did: string, current: GraphData, incoming: GraphData)
    requires DistinctKeys(current.nodes, NodeId) && DistinctKeys(incoming.nodes, NodeId)
    requires DistinctKeys(current.edges, EdgeKey) && DistinctKeys(incoming.edges, EdgeKey)
    ensures var shown := Shown(current, Merge(did, current, incoming));
      DistinctKeys(shown.nodes, NodeId) && DistinctKeys(shown.edges, EdgeKey)
  {
    ShownAfterMerge(did, current, incoming);
    if Merge(did, current, incoming).updatedGraphData.Some? {
      UpdatedNodesKeepIdsDistinct(current.nodes, incoming.nodes);
      UpdatedEdgesKeepKeysDistinct(current.edges, incoming.edges);
    }
  }

  /** A graph in which an id names one node and a (source, target) pair one edge. */
  ghost predicate Coherent(g: GraphData)
  {
    && (forall a, b :: a in g.nodes && b in g.nodes && NodeId(a) == NodeId(b) ==> a == b)
    && (forall a, b :: a in g.edges && b in g.edges && EdgeKey(a) == EdgeKey(b) ==> a == b)
  }

  /** Every introduction is known to a list that holds it, so a list merged with
      itself gains nothing. */
  lemma CombinedWithItself(intros: seq<Introduction>)
    ensures CombinedIntros(intros, intros) == intros
  {
    forall x | x in intros
      ensures Known(intros, x)
    {
      assert SameIntro(x, x);
    }
    var added := Filter(intros, IsUnknownIntro(intros));
    FirstIsMember(added);
    assert intros + added == intros;
  }

  /** Expanding with a graph equal to the one on screen changes nothing and
      shows the informational message. */
  lemma MergeWithSelfIsNoChange(did: string, g: GraphData)
    requires Coherent(g)
    ensures Merge(did, g, g) == ExpandOutcome(None, Some(Snackbar(TappedName(g.nodes, did) + NoIntroductionSuffix, Info)))
  {
    var nodesToAdd := NodesToAdd(g.nodes, g.nodes);
    FirstIsMember(nodesToAdd);
    var edgesToAdd := EdgesToAdd(g.edges, g.edges);
    FirstIsMember(edgesToAdd);
    forall n | n in g.nodes
      ensures !GainsIntros(n, g.nodes)
    {
      var m := Counterpart(n, g.nodes);
      assert m.Some? by { assert HasId(NodeId(n))(n); }
      assert m.value == n;
      CombinedWithItself(IntrosOf(n));
    }
    forall e | e in g.edges
      ensures !EdgeChanged(e, g.edges)
    {
      var c := Find(g.edges, SameEnds(e));
      assert c.Some? by { assert SameEnds(e)(e); }
      assert EdgeKey(c.value) == EdgeKey(e);
    }
  }

  /** Without coherence the merge of a graph with itself can report a change:
      a second node with the id of the first, lacking the first one's
      introductions, gains them from its counterpart. */
  lemma SelfMergeNeedsCoherence(did: string, first: GraphNode, second: GraphNode, rest: seq<GraphNode>, edges: seq<GraphEdge>)
    requires NodeId(first) == NodeId(second)
    requires IntrosOf(first) != [] && IntrosOf(second) == []
    ensures var g := GraphData([first, second] + rest, edges);
      !Coherent(g) && Merge(did, g, g).updatedGraphData.Some?
  {
    var g := GraphData([first, second] + rest, edges);
    DuplicateIdGains(first, second, rest);
    assert first != second;
    assert first in g.nodes && second in g.nodes;
    MergeOutcome(did, g, g);
  }

  /** A node without introductions, listed after a node of the same id that
      has some, takes that node as its counterpart and gains them. */
  lemma DuplicateIdGains(first: GraphNode, second: GraphNode, rest: seq<GraphNode>)
    requires NodeId(first) == NodeId(second)
    requires IntrosOf(first) != [] && IntrosOf(second) == []
    ensures IntroductionsUpdated([first, second] + rest, [first, second] + rest)
  {
    var nodes := [first, second] + rest;
    assert nodes[0] == first && nodes[1] == second;
    assert Counterpart(second, nodes) == Some(first) by {
      assert HasId(NodeId(second))(first);
    }
    var added := Filter(IntrosOf(first), IsUnknownIntro([]));
    assert IntrosOf(first)[0] in added;
    FirstIsMember(added);
    assert GainsIntros(second, nodes);
    assert second in nodes;
  }

  // ---------------------------------------------------------------------------
  // The string edge key

  /** A source without '-' is recovered from the string key. */
  lemma EdgeKeyAsWrittenInjective(a: GraphEdge, b: GraphEdge)
    requires '-' !in a.source && '-' !in b.source
    requires EdgeKeyAsWritten(a) == EdgeKeyAsWritten(b)
    ensures EdgeKey(a) == EdgeKey(b)
  {
    SplitAfterPiece(a.source, '-', a.target);
    SplitAfterPiece(b.source, '-', b.target);
    assert EdgeKeyAsWritten(a) == a.source + ['-'] + a.target;
    assert EdgeKeyAsWritten(b) == b.source + ['-'] + b.target;
    assert Split(EdgeKeyAsWritten(a), '-')[0] == a.source;
    assert a.source == b.source;
    var n := |a.source| + 1;
    assert a.target == EdgeKeyAsWritten(a)[n..];
    assert b.target == EdgeKeyAsWritten(b)[n..];
  }

  /** Two different (source, target) pairs share one string key: the incoming
      edge "a" -> "b-c" is taken for the existing edge "a-b" -> "c" and is not
      added, although no existing edge joins its endpoints. */
  lemma EdgeKeyCollision()
    ensures var current := [GraphEdge("a-b", "c", map[])];
      var incoming := [GraphEdge("a", "b-c", map[])];
      && EdgesToAddAsWritten(current, incoming) == []
      && EdgesToAdd(current, incoming) == incoming
      && Find(current, SameEnds(incoming[0])).None?
  {
    var current := [GraphEdge("a-b", "c", map[])];
    var incoming := [GraphEdge("a", "b-c", map[])];
    assert EdgeKeyAsWritten(incoming[0]) == EdgeKeyAsWritten(current[0]);
    assert incoming[..0] == [];
    assert EdgeKey(incoming[0]) != EdgeKey(current[0]);
    assert EdgeKey(incoming[0]) !in EdgeKeys(current);
    FirstIsMember(EdgesToAddAsWritten(current, incoming));
  }

  /** When no edge source contains '-', the string key selects exactly the
      edges the pair key selects. */
  lemma HyphenFreeKeysAgree(current: seq<GraphEdge>, incoming: seq<GraphEdge>)
    requires forall e :: e in current ==> '-' !in e.source
    requires forall e :: e in incoming ==> '-' !in e.source
    ensures EdgesToAddAsWritten(current, incoming) == EdgesToAdd(current, incoming)
  {
    forall e | e in incoming
      ensures IsNewEdgeAsWritten(current)(e) == IsNewEdge(EdgeKeys(current))(e)
    {
      if !IsNewEdgeAsWritten(current)(e) {
        var c :| c in current && EdgeKeyAsWritten(c) == EdgeKeyAsWritten(e);
        EdgeKeyAsWrittenInjective(c, e);
      }
    }
    FilterCongruent(incoming, IsNewEdgeAsWritten(current), IsNewEdge(EdgeKeys(current)));
  }

  /** When no edge source contains '-', the merge as written and the
      pair-keyed merge give the same outcome. */
  lemma HyphenFreeMergeAgrees(did: string, current: GraphData, incoming: GraphData)
    requires forall e :: e in current.edges ==> '-' !in e.source
    requires forall e :: e in incoming.edges ==> '-' !in e.source
    ensures MergeAsWritten(did, current, incoming) == Merge(did, current, incoming)
  {
    HyphenFreeKeysAgree(current.edges, incoming.edges);
  }
}
