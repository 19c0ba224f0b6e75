/** The expansion endpoint `POST /expandGraph`: given the identity the user
    tapped, it lists that identity's introduction records, looks up the
    profiles of the identity and of everyone it introduced, and answers with
    bare nodes (no introductions, no tags) and one edge per record from the
    record's `repo` to its subject. The client folds the answer into the
    graph on screen with `GraphUtils.Merge`. */
module ExpandRoute {
  import opened Collections
  import opened GraphTypes
  import opened GraphService
  import GraphUtils

  const DidRequiredMessage := "DID is required"
  const ConfigurationErrorMessage := "Server configuration error"

  datatype PostBody = ErrorBody(error: string) | GraphBody(graphData: GraphData)

  /** A JSON response with its status, or an error thrown out of the handler. */
  datatype PostResponse = Json(status: nat, body: PostBody) | Thrown

  /** `!didToExpand`: the field is missing or empty. */
  predicate DidMissing(did: Option<string>)
  {
    did.None? || did.value == ""
  }

  // ---------------------------------------------------------------------------
  // Frontier

  /** `newDids` read back in insertion order: the subjects of the seed's
      records, then the seed itself unless it is already there. */
  function ExpansionFrontier(seed: string, records: seq<Record>): (frontier: seq<string>)
  {
    Dedup(Subjects(records) + [seed])
  }

  /** The frontier repeats nothing and holds exactly the seed and the subjects
      of its records. */
  lemma ExpansionFrontierShape(seed: string, records: seq<Record>)
    ensures var dids := ExpansionFrontier(seed, records);
      && NoDups(dids) && seed in dids
      && forall d :: d in dids <==> d == seed || exists r :: r in records && Subject(r) == Some(d)
  {
  }

  /** The `newDids` set: the `forEach` over the records, then `add(didToExpand)`. */
  method CollectExpansionFrontier(seed: string, records: seq<Record>) returns (dids: seq<string>)
    ensures dids == ExpansionFrontier(seed, records)
  {
    dids := [];
    var i := 0;
    while i < |records|
      invariant 0 <= i <= |records|
      invariant dids == Dedup(Subjects(records[..i]))
    {
      SubjectsStep(records, i);
      var subject := Subject(records[i]);
      if subject.Some? {
        DedupSnoc(Subjects(records[..i]), subject.value);
        dids := SetAdd(dids, subject.value);
      } else {
        assert Subjects(records[..i + 1]) == Subjects(records[..i]);
      }
      i := i + 1;
    }
    assert records[..i] == records;
    DedupSnoc(Subjects(records), seed);
    dids := SetAdd(dids, seed);
  }

  // ---------------------------------------------------------------------------
  // Nodes

  /** A node of the expansion: the base fields only. */
  function RouteNode(p: Profile, b: Backend): (node: GraphNode)
  {
    GraphNode(BaseData(p, b))
  }

  /** One node per profile, in profile order. */
  function RouteNodes(profiles: seq<Profile>, b: Backend): (nodes: seq<GraphNode>)
    ensures |nodes| == |profiles|
    ensures forall k :: 0 <= k < |profiles| ==> nodes[k] == RouteNode(profiles[k], b)
    decreases |profiles|
  {
    if |profiles| == 0 then []
    else RouteNodes(profiles[..|profiles| - 1], b) + [RouteNode(profiles[|profiles| - 1], b)]
  }

  /** What a node of the expansion holds: `id`, `img`, `name`, `rank` and
      `handle`, and neither `introductions` nor `tags`. */
  lemma RouteNodeFields(p: Profile, b: Backend)
    ensures var d := RouteNode(p, b).data;
      && d.Keys == {"id", "img", "name", "rank", "handle"}
      && "introductions" !in d && "tags" !in d
      && d["id"] == Str(p.did) && d["handle"] == Str(p.handle)
      && d["name"] == Str(if p.displayName.Some? && p.displayName.value != "" then p.displayName.value else p.handle)
      && d["rank"] == Num(RankOf(p, b.rankScore))
      && RankLowest <= d["rank"].n <= RankHighest
      && (FollowersOrZero(p) == 0 ==> d["rank"].n == RankLowest)
  {
  }

  lemma RouteNodesStep(profiles: seq<Profile>, i: nat, b: Backend)
    requires i < |profiles|
    ensures RouteNodes(profiles[..i + 1], b) == RouteNodes(profiles[..i], b) + [RouteNode(profiles[i], b)]
    ensures ProfileDids(profiles[..i + 1]) == ProfileDids(profiles[..i]) + {profiles[i].did}
  {
    assert profiles[..i + 1][..i] == profiles[..i];
    ProfileDidsStep(profiles, i);
  }

  /** The `for (const profile of profiles)` loop: fills `didToProfileMap` and
      pushes one node per profile. */
  method EmitRouteNodes(profiles: seq<Profile>, b: Backend) returns (nodes: seq<GraphNode>, known: set<string>)
    ensures nodes == RouteNodes(profiles, b)
    ensures known == ProfileDids(profiles)
  {
    nodes := [];
    known := {};
    var i := 0;
    while i < |profiles|
      invariant 0 <= i <= |profiles|
      invariant nodes == RouteNodes(profiles[..i], b)
      invariant known == ProfileDids(profiles[..i])
    {
      var profile := profiles[i];
      RouteNodesStep(profiles, i, b);
      known := known + {profile.did};
      var rank := RankOf(profile, b.rankScore);
      var node := GraphNode(map["id" := Str(profile.did), "img" := ImageOf(profile, b.imageToBase64),
                                "name" := Str(DisplayName(profile)), "rank" := Num(rank), "handle" := Str(profile.handle)]);
      nodes := nodes + [node];
      i := i + 1;
    }
    assert profiles[..i] == profiles;
  }

  // ---------------------------------------------------------------------------
  // Edges

  /** The record has a subject and a `repo`, and both have a profile. */
  function Linked(known: set<string>): Record -> bool
  {
    r => Subject(r).Some? && r.repo.Some? && r.repo.value in known && Subject(r).value in known
  }

  /** `{ source: record.repo, target: record.value.subject }`. */
  function RecordEdge(r: Record): (edge: GraphEdge)
  {
    GraphEdge(if r.repo.Some? then r.repo.value else "", if Subject(r).Some? then Subject(r).value else "", map[])
  }

  /** The edges of the expansion: one per linked record, in record order. */
  function RepoEdges(records: seq<Record>, known: set<string>): (edges: seq<GraphEdge>)
  {
    MapSeq(Filter(records, Linked(known)), RecordEdge)
  }

  /** Every edge joins two identities with profiles and comes from a record
      whose `repo` and subject they are; every linked record gives one. */
  lemma RepoEdgesShape(records: seq<Record>, known: set<string>)
    ensures var edges := RepoEdges(records, known);
      && |edges| == |Filter(records, Linked(known))|
      && (forall e :: e in edges ==>
            (e.source in known && e.target in known && e.extra == map[]
             && exists r :: r in records && r.repo == Some(e.source) && Subject(r) == Some(e.target)))
      && (forall r :: r in records && Linked(known)(r) ==> RecordEdge(r) in edges)
  {
    var linked := Filter(records, Linked(known));
    var edges := RepoEdges(records, known);
    forall e | e in edges
      ensures e.source in known && e.target in known && e.extra == map[]
      ensures exists r :: r in records && r.repo == Some(e.source) && Subject(r) == Some(e.target)
    {
      var k :| 0 <= k < |edges| && edges[k] == e;
      assert linked[k] in linked;
    }
    forall r | r in records && Linked(known)(r)
      ensures RecordEdge(r) in edges
    {
      assert r in linked;
      var k :| 0 <= k < |linked| && linked[k] == r;
      assert edges[k] == RecordEdge(r);
    }
  }

  /** Records without a `repo` field give no edge at all. */
  lemma NoRepoNoEdges(records: seq<Record>, known: set<string>)
    requires forall r :: r in records ==> r.repo.None?
    ensures RepoEdges(records, known) == []
  {
    var linked := Filter(records, Linked(known));
    FirstIsMember(linked);
  }

  lemma RepoEdgesStep(records: seq<Record>, known: set<string>, i: nat)
    requires i < |records|
    ensures RepoEdges(records[..i + 1], known)
      == RepoEdges(records[..i], known) + (if Linked(known)(records[i]) then [RecordEdge(records[i])] else [])
  {
    assert records[..i + 1] == records[..i] + [records[i]];
    FilterSnoc(records[..i], records[i], Linked(known));
    if Linked(known)(records[i]) {
      MapSeqSnoc(Filter(records[..i], Linked(known)), records[i], RecordEdge);
    }
  }

  /** The `relatedRecords.forEach` that pushes the edges. */
  method EmitRepoEdges(records: seq<Record>, known: set<string>) returns (edges: seq<GraphEdge>)
    ensures edges == RepoEdges(records, known)
  {
    edges := [];
    var i := 0;
    while i < |records|
      invariant 0 <= i <= |records|
      invariant edges == RepoEdges(records[..i], known)
    {
      RepoEdgesStep(records, known, i);
      var record := records[i];
      var subject := Subject(record);
      if subject.Some? && record.repo.Some? && record.repo.value in known && subject.value in known {
        edges := edges + [GraphEdge(record.repo.value, subject.value, map[])];
      }
      i := i + 1;
    }
    assert records[..i] == records;
  }

  // ---------------------------------------------------------------------------
  // The handler

  /** `POST` for a request body whose `did` field is `did`. */
  function Expansion(did: Option<string>, b: Backend): (response: PostResponse)
  {
    if DidMissing(did) then Json(400, ErrorBody(DidRequiredMessage))
    else if !b.credentialsSet then Json(500, ErrorBody(ConfigurationErrorMessage))
    else if !b.loginSucceeds then Thrown
    else
      var seed := did.value;
      var records := AllRecords(b.listRecords(seed, IntroductionCollection));
      match AllProfiles(ExpansionFrontier(seed, records), b.getProfiles)
      case None => Thrown
      case Some(profiles) => Json(200, GraphBody(GraphData(RouteNodes(profiles, b), RepoEdges(records, ProfileDids(profiles)))))
  }

  /** `POST`, step by step. */
  method Post(did: Option<string>, b: Backend) returns (response: PostResponse)
    ensures response == Expansion(did, b)
  {
    if DidMissing(did) {
      return Json(400, ErrorBody(DidRequiredMessage));
    }
    if !b.credentialsSet {
      return Json(500, ErrorBody(ConfigurationErrorMessage));
    }
    if !b.loginSucceeds {
      return Thrown;
    }
    var seed := did.value;
    var records, _ := FetchAllRecords(b.listRecords(seed, IntroductionCollection));
    var newDids := CollectExpansionFrontier(seed, records);
    var profiles, _ := FetchAllProfiles(newDids, b.getProfiles);
    if profiles.None? {
      return Thrown;
    }
    var nodes, known := EmitRouteNodes(profiles.value, b);
    var edges := EmitRepoEdges(records, known);
    return Json(200, GraphBody(GraphData(nodes, edges)));
  }

  /** A request without a did is answered 400 whatever the configuration; one
      with a did but without credentials is answered 500; every other answer
      is a 200 with a graph, or a thrown error. */
  lemma ValidationComesFirst(did: Option<string>, b: Backend)
    ensures DidMissing(did) ==> Expansion(did, b) == Json(400, ErrorBody(DidRequiredMessage))
    ensures !DidMissing(did) && !b.credentialsSet ==> Expansion(did, b) == Json(500, ErrorBody(ConfigurationErrorMessage))
    ensures Expansion(did, b).Json? && Expansion(did, b).status != 400 && Expansion(did, b).status != 500 ==>
      Expansion(did, b).status == 200 && Expansion(did, b).body.GraphBody?
  {
  }

  /** A successful expansion answers with bare nodes and with edges whose
      endpoints are both node ids. */
  lemma ExpansionIsWellFormed(did: Option<string>, b: Backend)
    ensures var response := Expansion(did, b);
      response.Json? && response.body.GraphBody? ==>
        var g := response.body.graphData;
        && (forall n :: n in g.nodes ==> "introductions" !in n.data && "tags" !in n.data)
        && (forall e :: e in g.edges ==> Some(Str(e.source)) in NodeIds(g.nodes) && Some(Str(e.target)) in NodeIds(g.nodes))
  {
    var response := Expansion(did, b);
    if response.Json? && response.body.GraphBody? {
      var seed := did.value;
      var records := AllRecords(b.listRecords(seed, IntroductionCollection));
      var profiles := AllProfiles(ExpansionFrontier(seed, records), b.getProfiles).value;
      assert response.body.graphData == GraphData(RouteNodes(profiles, b), RepoEdges(records, ProfileDids(profiles)));
      RouteGraphIsWellFormed(profiles, records, b);
    }
  }

  /** The graph built from given profiles and records: bare nodes, and edges
      between node ids. */
  lemma RouteGraphIsWellFormed(profiles: seq<Profile>, records: seq<Record>, b: Backend)
    ensures var nodes := RouteNodes(profiles, b);
      && (forall n :: n in nodes ==> "introductions" !in n.data && "tags" !in n.data)
      && (forall e :: e in RepoEdges(records, ProfileDids(profiles)) ==>
            Some(Str(e.source)) in NodeIds(nodes) && Some(Str(e.target)) in NodeIds(nodes))
  {
    RouteNodesAreBare(profiles, b);
    RouteNodesCoverProfiles(profiles, b);
    RepoEdgesShape(records, ProfileDids(profiles));
  }

  lemma RouteNodesAreBare(profiles: seq<Profile>, b: Backend)
    ensures forall n :: n in RouteNodes(profiles, b) ==> "introductions" !in n.data && "tags" !in n.data
  {
    var nodes := RouteNodes(profiles, b);
    forall n | n in nodes
      ensures "introductions" !in n.data && "tags" !in n.data
    {
      var k :| 0 <= k < |nodes| && nodes[k] == n;
      RouteNodeFields(profiles[k], b);
    }
  }

  /** Every identity with a profile is the id of a node. */
  lemma RouteNodesCoverProfiles(profiles: seq<Profile>, b: Backend)
    ensures forall d :: d in ProfileDids(profiles) ==> Some(Str(d)) in NodeIds(RouteNodes(profiles, b))
  {
    var nodes := RouteNodes(profiles, b);
    forall d | d in ProfileDids(profiles)
      ensures Some(Str(d)) in NodeIds(nodes)
    {
      var k :| 0 <= k < |profiles| && profiles[k].did == d;
      assert NodeId(nodes[k]) == Some(Str(d));
      assert nodes[k] in nodes;
    }
  }

  // ---------------------------------------------------------------------------
  // The endpoint and the client merge together

  /** Incoming nodes without `introductions` or `tags` never add an
      introduction: every current node keeps its introductions exactly, and
      its tags when it has any. */
  lemma BareNodesAddNoIntroductions(current: seq<GraphNode>, incoming: seq<GraphNode>)
    requires forall n :: n in incoming ==> "introductions" !in n.data && "tags" !in n.data
    ensures !GraphUtils.IntroductionsUpdated(current, incoming)
    ensures forall k :: 0 <= k < |current| ==>
      var updated := GraphUtils.UpdatedNodes(current, incoming)[k];
      && IntrosOf(updated) == IntrosOf(current[k])
      && ("tags" in current[k].data ==> "tags" in updated.data && updated.data["tags"] == current[k].data["tags"])
  {
    forall n | n in current
      ensures !GraphUtils.GainsIntros(n, incoming)
      ensures var updated := GraphUtils.UpdateNode(n, incoming);
        && IntrosOf(updated) == IntrosOf(n)
        && ("tags" in n.data ==> "tags" in updated.data && updated.data["tags"] == n.data["tags"])
    {
      var counterpart := GraphUtils.Counterpart(n, incoming);
      if counterpart.Some? {
        var m := counterpart.value;
        assert IntrosOf(m) == [];
        assert Filter([], GraphUtils.IsUnknownIntro(IntrosOf(n))) == [];
        assert GraphUtils.CombinedIntros(IntrosOf(n), []) == IntrosOf(n);
      }
    }
    forall k | 0 <= k < |current|
      ensures var updated := GraphUtils.UpdatedNodes(current, incoming)[k];
        && IntrosOf(updated) == IntrosOf(current[k])
        && ("tags" in current[k].data ==> "tags" in updated.data && updated.data["tags"] == current[k].data["tags"])
    {
      assert current[k] in current;
    }
  }

  /** Whatever graph is on screen, merging a successful expansion into it
      changes no introduction list: the endpoint sends none. */
  lemma ExpansionKeepsIntroductions(tapped: string, b: Backend, current: GraphData)
    requires Expansion(Some(tapped), b).Json? && Expansion(Some(tapped), b).body.GraphBody?
    ensures var incoming := Expansion(Some(tapped), b).body.graphData;
      && !GraphUtils.IntroductionsUpdated(current.nodes, incoming.nodes)
      && forall k :: 0 <= k < |current.nodes| ==>
           IntrosOf(GraphUtils.UpdatedNodes(current.nodes, incoming.nodes)[k]) == IntrosOf(current.nodes[k])
  {
    ExpansionIsWellFormed(Some(tapped), b);
    BareNodesAddNoIntroductions(current.nodes, Expansion(Some(tapped), b).body.graphData.nodes);
  }
}
