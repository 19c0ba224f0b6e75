/** The graph as the client and both server endpoints exchange it: nodes whose
    `data` is a JSON object, edges between two identities, and the
    introductions attached to a node. */
module GraphTypes {
  import opened Collections

  /** One introduction of `subject` written by `author`: the stored record's
      value with the author's identity attached. `payload` holds the record's
      remaining fields (body, language, timestamps, type), which the graph code
      only carries along. */
  datatype Introduction = Introduction(
    author: Option<string>,
    subject: string,
    tags: Option<seq<string>>,
    payload: map<string, string>)

  /** The JSON values a node's data object holds. */
  datatype Value =
    | Null
    | Bool(b: bool)
    | Num(n: real)
    | Str(s: string)
    | Strs(strs: seq<string>)
    | Intros(intros: seq<Introduction>)

  /** A node: its data object, keyed by field name (`id`, `img`, `name`,
      `rank`, `handle`, `introductions`, `tags`, ...). A field that is absent
      from the object is absent from the map. */
  datatype GraphNode = GraphNode(data: map<string, Value>)

  /** A directed edge `source -> target` ("source introduced target"), with any
      further fields of its data object. */
  datatype GraphEdge = GraphEdge(source: string, target: string, extra: map<string, Value>)

  datatype GraphData = GraphData(nodes: seq<GraphNode>, edges: seq<GraphEdge>)

  /** `node.data.id`; None when the field is absent. */
  function NodeId(n: GraphNode): (id: Option<Value>)
  {
    if "id" in n.data then Some(n.data["id"]) else None
  }

  function NodeIds(nodes: seq<GraphNode>): (ids: set<Option<Value>>)
    ensures forall n :: n in nodes ==> NodeId(n) in ids
    ensures forall id :: id in ids ==> exists n :: n in nodes && NodeId(n) == id
  {
    set n | n in nodes :: NodeId(n)
  }

  /** An edge is identified by its ordered pair of endpoints. */
  function EdgeKey(e: GraphEdge): (key: (string, string))
  {
    (e.source, e.target)
  }

  function EdgeKeys(edges: seq<GraphEdge>): (keys: set<(string, string)>)
    ensures forall e :: e in edges ==> EdgeKey(e) in keys
    ensures forall k :: k in keys ==> exists e :: e in edges && EdgeKey(e) == k
  {
    set e | e in edges :: EdgeKey(e)
  }

  /** `node.data.introductions || []`. */
  function IntrosOf(n: GraphNode): (intros: seq<Introduction>)
  {
    if "introductions" in n.data && n.data["introductions"].Intros? then n.data["introductions"].intros else []
  }
}
