# graph_be_more_blue — a Dafny model of the introduction graph

The application draws a graph of Bluesky users linked by *introductions*. An
introduction is a record of the collection
`com.skybemoreblue.intro.introduction` in which one user (the author)
introduces another (the subject). This project models three pieces of it:

- **The server build of the first graph** (`getGraphData`):
  - resolve the center handle, list the center's introduction records page by
    page, and take the frontier of the center and the subjects it introduced;
  - list the records of every frontier member and group them by subject;
  - fetch profiles in chunks of 25;
  - emit one node per profile, with rank, introductions and tag union;
  - emit one edge from the center per center record whose subject has a
    profile, repeats kept, and none when the center itself has no profile.
- **The expansion endpoint** (`POST /expandGraph`):
  - validate the request;
  - list the tapped identity's records and fetch the profiles of it and of its
    subjects;
  - answer with bare nodes and one `repo → subject` edge per record.
- **The client merge** (`expandGraph`):
  - fold the endpoint's answer into the graph on screen: add unknown nodes and
    edges, union introductions, and overwrite changed edges;
  - when nothing changed, return no graph and an informative snackbar.

Network collaborators are oracles held in a `Backend` value:
- credentials, login, `resolveHandle`, `listRecords` (as the sequence of page
  responses that the cursor chain would receive), `getProfiles`;
- the `log10` score inside `getRank`, and `imageToBase64`.

Each stateful step is a Dafny `method` with loops. It is proved equal to a
specification function, and the properties are proved about that function:
- `GraphService.GetGraphData` against `GraphService.BuildGraph`;
- `ExpandRoute.Post` against `ExpandRoute.Expansion`;
- `GraphUtils.ExpandGraph` against `GraphUtils.ExpandResult`.

Files:
- `collections.dfy`: JavaScript's `filter`, `find`, `map`, insertion-ordered
  `Set`, `flat`, `slice` chunking and `split`, over sequences.
- `graph_types.dfy`: nodes, edges and introductions.
- `graph_utils.dfy`: the client merge.
- `graph_service.dfy`: the server build.
- `expand_route.dfy`: the expansion endpoint, and how its answer meets the
  client merge.

## Model

| member | source | states |
|---|---|---|
| GraphUtils.ExpandGraph | src/lib/graphUtils.ts:21-90 | A response that is not ok gives no graph and the error snackbar. Any other response gives exactly the merge result, computed by loops that carry the two change flags. |
| GraphUtils.FailedResponseKeepsGraph | src/lib/graphUtils.ts:21-24 | A failed response gives no graph and the server-error snackbar. The graph on screen stays as it was. |
| GraphUtils.NodesToAdd | src/lib/graphUtils.ts:29-32 | A node is added exactly when it is incoming and its id is not an id of a current node. |
| GraphUtils.EdgesToAdd | src/lib/graphUtils.ts:30-35 | An edge is added exactly when it is incoming and no current edge has its (source, target) pair. |
| GraphUtils.EdgesToAddAsWritten | src/lib/graphUtils.ts:30-35 | As written: an edge is added exactly when no current edge has the same `source-target` string key. |
| GraphUtils.CombinedIntros | src/lib/graphUtils.ts:43-52 | The combined list starts with the existing introductions, unchanged and in order. What follows are exactly the incoming introductions whose (author, subject) matches no existing one. |
| GraphUtils.CombineIntros | src/lib/graphUtils.ts:43-52 | The push loop builds the combined list. The change flag is set exactly when something was appended. |
| GraphUtils.MergedData | src/lib/graphUtils.ts:54 | Incoming fields override existing ones. Fields absent from the incoming node are kept. `introductions` is always the combined list. |
| GraphUtils.UpdateNode | src/lib/graphUtils.ts:40-57 | The node keeps its id. A node without a counterpart is returned unchanged. A node matched by the first incoming node of its id gets `MergedData` of its own data, that node's data and the combined introductions, and keeps its own introductions as a prefix. |
| GraphUtils.UpdatedNodes | src/lib/graphUtils.ts:40-57 | The updated list has the current length, and each position is that node updated. |
| GraphUtils.UpdateAllNodes | src/lib/graphUtils.ts:37-57 | The loop computes the updated nodes and sets `introductionsUpdated` exactly when some matched node gains an introduction. |
| GraphUtils.UpdateOneNode | src/lib/graphUtils.ts:41-56 | The `map` callback gives the updated node, and reports a change exactly when the matched node gains an introduction. |
| GraphUtils.UpdateEdge | src/lib/graphUtils.ts:59-70 | The edge keeps its endpoints. With no incoming edge of the same endpoints, or a first such edge equal to it, it is unchanged. Otherwise its data are the spread of both: every field of that first counterpart, and its own fields the counterpart lacks. |
| GraphUtils.UpdatedEdges | src/lib/graphUtils.ts:59-70 | The updated list has the current length, and each position is that edge updated. |
| GraphUtils.UpdateAllEdges | src/lib/graphUtils.ts:38-70 | The loop computes the updated edges and sets `edgesUpdated` exactly when some matched edge differs from its counterpart. |
| GraphUtils.UpdateOneEdge | src/lib/graphUtils.ts:60-69 | The `map` callback gives the updated edge, and reports a change exactly when its counterpart differs. |
| GraphUtils.TappedName | src/lib/graphUtils.ts:77-78 | The name is never empty. The first node with the tapped id gives its non-empty `name`, else its non-empty `handle`. With neither, or when no node has the tapped id, it is the fallback 'このユーザー'. |
| GraphUtils.MergeOutcome | src/lib/graphUtils.ts:72-90 | No graph comes back exactly when nothing is added, no introduction is gained and no edge changes; it then comes with the info snackbar naming the tapped node. Otherwise the graph is the updated nodes and edges followed by the added ones, with no snackbar. |
| GraphUtils.ShownAfterMerge | src/lib/graphUtils.ts:76-90 | The graph on screen after a merge is the current one when the merge returns no graph (nothing added, no introduction gained, no edge changed), and otherwise the updated lists followed by the added ones. |
| GraphUtils.MergeKeepsNodes | src/lib/graphUtils.ts:40-57 | Position by position, the nodes on screen start with the current nodes, with the same ids. Each node's introductions are a prefix of its new list. |
| GraphUtils.MergeKeepsEdges | src/lib/graphUtils.ts:59-70 | Position by position, the edges on screen start with the current edges, with the same endpoints. |
| GraphUtils.MergeLosesNoNode | src/lib/graphUtils.ts:82-90 | Every id of the current graph and of the incoming graph is a node id on screen after the merge. |
| GraphUtils.MergeLosesNoEdge | src/lib/graphUtils.ts:82-90 | Every (source, target) pair of the current graph and of the incoming graph is an edge on screen after the merge. |
| GraphUtils.MergeKeepsKeysDistinct | src/lib/graphUtils.ts:29-90 | If both graphs have distinct node ids and distinct edge pairs, so does the graph on screen after the merge. |
| GraphUtils.CombinedWithItself | src/lib/graphUtils.ts:43-52 | Combining an introduction list with itself gives that list back. |
| GraphUtils.MergeWithSelfIsNoChange | src/lib/graphUtils.ts:29-79 | Merging a coherent graph into itself gives no graph and the info snackbar. |
| GraphUtils.SelfMergeNeedsCoherence | src/lib/graphUtils.ts:40-57 | Without coherence the claim fails. Take any graph whose node list begins with a node that has introductions, followed by a node with the same id and none, and with any further nodes and any edges. It is not coherent, and merging it into itself gives a graph. |
| GraphUtils.EdgeKeyAsWrittenInjective | src/lib/graphUtils.ts:30 | When sources contain no '-', equal string keys mean equal (source, target) pairs. |
| GraphUtils.EdgeKeyCollision | src/lib/graphUtils.ts:30-35 | Counterexample: the incoming edge a → b-c is dropped as already present, because of the current edge a-b → c. No current edge joins its endpoints. |
| GraphUtils.HyphenFreeKeysAgree | src/lib/graphUtils.ts:30-35 | When no source contains '-', the string-key selection equals the pair-key selection. |
| GraphUtils.MergeAsWritten | src/lib/graphUtils.ts:29-90 | The merge as written, with string edge keys. No graph comes back exactly when no node is added, no edge has a new `source-target` string, no introduction is gained and no edge changes. Otherwise the edges after the current ones are exactly the incoming edges whose string key no current edge has. |
| GraphUtils.HyphenFreeMergeAgrees | src/lib/graphUtils.ts:29-90 | When no edge source contains '-', the merge as written (string keys) and the pair-keyed merge give the same outcome. |
| GraphService.ClampRank | src/lib/server/graphService.ts:17-28 | The rank lies in [20, 60]. A raw value inside the range is kept, one above it gives 60, and one below it (including −∞) gives 20. |
| GraphService.ClampRankMonotonic | src/lib/server/graphService.ts:19-27 | The clamp preserves order. |
| GraphService.FollowsOrOne | src/lib/server/graphService.ts:141 | The follows count defaulting to 1: a positive count is kept, and a missing or zero count gives exactly 1. |
| GraphService.RankOf | src/lib/server/graphService.ts:139-142 | A profile's rank lies in [20, 60]. A profile with no followers gets 20. Otherwise it is the clamp of the score of (followers, follows or 1). |
| GraphService.AllPagesConcatenated | src/lib/server/graphService.ts:45-51 | When the first k pages all return a cursor and page k returns none, the result is the records of pages 0..k concatenated in order. |
| GraphService.FailureGivesNoRecords | src/lib/server/graphService.ts:36-55 | A failed request anywhere in the cursor chain gives [], never a partial list. |
| GraphService.FetchAllRecords | src/lib/server/graphService.ts:30-56 | The loop returns the chained records. The first request has no cursor, and each later one carries the cursor of the page before. It keeps requesting exactly while a cursor comes back. |
| GraphService.FetchAllProfiles | src/lib/server/graphService.ts:58-72 | The loop returns the concatenated answers. On success the requested chunks are `Chunks(dids, 25)`, which flatten back to the ids. The requested chunks are always a prefix of those chunks. |
| GraphService.ProfilesConcatenated | src/lib/server/graphService.ts:62-71 | When every chunk is answered, the profiles are the answers concatenated in chunk order. |
| GraphService.ProfileFailurePropagates | src/lib/server/graphService.ts:64-67 | One chunk request that throws makes the whole fetch throw. |
| GraphService.Subjects | src/lib/server/graphService.ts:105-109 | A string is listed exactly when some record has it as a non-empty subject. |
| GraphService.FrontierShape | src/lib/server/graphService.ts:97-109 | The frontier starts with the center and repeats nothing. It holds exactly the center and the subjects of the center's records. |
| GraphService.CollectFrontier | src/lib/server/graphService.ts:97-109 | The `initialDids` loop builds the frontier. |
| GraphService.RecordsOfAll | src/lib/server/graphService.ts:112-116 | A record is in the fan-out exactly when it is among the records listed for some frontier member. |
| GraphService.FanOut | src/lib/server/graphService.ts:112-116 | The fan-out loop lists the records of every frontier member, in frontier order. |
| GraphService.AuthorOfAtUri | src/lib/server/graphService.ts:121 | For an AT URI `at://<did>/<path>` the third `/`-separated piece is the did. |
| GraphService.GroupedIsIntrosAbout | src/lib/server/graphService.ts:118-129 | The map's keys are exactly the subjects. Each subject maps to the introductions of the records about it, in record order, with the author taken from the URI. |
| GraphService.GroupBySubject | src/lib/server/graphService.ts:118-129 | The `introRecordsMap` loop builds that grouping. |
| GraphService.AllTags | src/lib/server/graphService.ts:145-150 | A tag is collected exactly when some introduction carries it. |
| GraphService.CollectTags | src/lib/server/graphService.ts:145-150 | The nested tag loops build the insertion-ordered union of the tags. |
| GraphService.FullNodeFields | src/lib/server/graphService.ts:137-164 | A node has exactly id, img, name, rank, handle, introductions and tags. The name is the display name, or the handle when that is missing or empty, and the rank is `RankOf` of the profile, in [20, 60] (20 with no followers). The introductions are those about the profile, and the tags are their union without repeats. |
| GraphService.ProfileNodes | src/lib/server/graphService.ts:137-164 | There is exactly one node per profile, in profile order. |
| GraphService.EmitNodes | src/lib/server/graphService.ts:133-164 | The loop emits those nodes and fills the profile map with exactly the profiles' ids. |
| GraphService.EmitNode | src/lib/server/graphService.ts:138-163 | The loop body builds exactly the node that `FullNodeFields` describes. |
| GraphService.EdgesFrom | src/lib/server/graphService.ts:168-174 | There is one edge from the source per target, in order. |
| GraphService.CenterEdgesShape | src/lib/server/graphService.ts:166-176 | Every edge leaves the center and reaches, with no extra data, the subject of some center record, and that subject has a profile. None exists when the center has no profile. Every record whose subject has a profile gives one edge. Repeats are kept: the count equals the number of such records. |
| GraphService.EmitCenterEdges | src/lib/server/graphService.ts:166-176 | The `forEach` emits those edges. |
| GraphService.GetGraphData | src/lib/server/graphService.ts:74-195 | The build, step by step, equals `BuildGraph`. |
| GraphService.BuildFailuresGiveEmpty | src/lib/server/graphService.ts:78-87 | Each of these gives empty nodes, empty edges and center '': missing credentials, a failed login, an unresolvable handle, a profile fetch that throws. |
| GraphService.BuildHasNoDanglingEdge | src/lib/server/graphService.ts:166-183 | Every edge leaves the reported center did, and both of its endpoints are node ids. |
| GraphService.CenterGraphHasNoDanglingEdge | src/lib/server/graphService.ts:137-176 | For any profiles and records, each center edge leaves the center and both its endpoints are ids of emitted nodes. |
| ExpandRoute.Post | src/routes/expandGraph/+server.ts:73-147 | The handler, step by step, equals `Expansion`. |
| ExpandRoute.ValidationComesFirst | src/routes/expandGraph/+server.ts:77-84 | A missing or empty did gives 400 'DID is required' whatever the configuration. A did without credentials gives 500 'Server configuration error'. Any other JSON answer is a 200 carrying a graph. |
| ExpandRoute.ExpansionFrontierShape | src/routes/expandGraph/+server.ts:96-102 | The frontier repeats nothing and contains the seed. It holds exactly the seed and the subjects of the seed's records. |
| ExpandRoute.CollectExpansionFrontier | src/routes/expandGraph/+server.ts:96-102 | The `newDids` loop builds the frontier, subjects first and the seed last. |
| ExpandRoute.RouteNodes | src/routes/expandGraph/+server.ts:110-127 | There is exactly one node per profile, in profile order. |
| ExpandRoute.RouteNodeFields | src/routes/expandGraph/+server.ts:110-127 | A node has exactly id, img, name, rank and handle, with no introductions and no tags. The name is the display name, or the handle when that is missing or empty. The rank is `RankOf` of the profile, in [20, 60], and 20 with no followers. |
| ExpandRoute.EmitRouteNodes | src/routes/expandGraph/+server.ts:106-127 | The loop emits those nodes and fills the profile map with exactly the profiles' ids. |
| ExpandRoute.RepoEdgesShape | src/routes/expandGraph/+server.ts:129-139 | Every edge joins two identities with profiles and comes from a record with that `repo` and subject. Every record with a subject, a `repo`, and profiles for both gives one edge; the count equals the number of such records. |
| ExpandRoute.NoRepoNoEdges | src/routes/expandGraph/+server.ts:129-139 | Records without a `repo` give no edge. |
| ExpandRoute.EmitRepoEdges | src/routes/expandGraph/+server.ts:129-139 | The `forEach` emits those edges. |
| ExpandRoute.ExpansionIsWellFormed | src/routes/expandGraph/+server.ts:106-146 | A 200 answer holds only bare nodes, and every edge endpoint is a node id. |
| ExpandRoute.BareNodesAddNoIntroductions | src/lib/graphUtils.ts:40-57 | Merging nodes without introductions or tags gains no introduction. Every current node keeps its introductions exactly, and its tags when it has them. |
| ExpandRoute.ExpansionKeepsIntroductions | src/routes/expandGraph/+server.ts:110-127 | Whatever graph is on screen, merging a successful expansion into it sets no introduction flag and leaves every introduction list as it was. |

## Left out

- The fetch in `expandGraph` (src/lib/graphUtils.ts:13-19, 26) is a `Response` parameter: either not ok, or ok with the decoded graph. A body that does not decode is not modelled.
- `console` logging, and the `group` field of the emitted nodes and edges, are not modelled.
- The `log10` part of `getRank` is floating point. It is the oracle `rankScore(followers, follows)`, and only the clamp is modelled. A profile with no followers scores −∞ (`log10(0)`), and the clamp turns that into 20.
- The AtpAgent calls are oracles: `login`, `resolveHandle`, `listRecords` (with `getPds`), `getProfiles`. Credentials are one flag, and a login that throws is `loginSucceeds == false`. `listRecords` is the sequence of responses that the cursor chain would receive. If the sequence runs out while a cursor is pending, that counts as a failed request.
- `imageToBase64` and `src/lib/server/util.ts` are not part of this model; `img` is the oracle's opaque value. The expansion endpoint calls `imageToBase64` without importing it (src/routes/expandGraph/+server.ts:1-5, 120), which would throw for a profile with an avatar. The model gives that endpoint the same `img` oracle as the build.
- The `Promise.all` fan-out (src/lib/server/graphService.ts:112-116) is modelled as a sequential loop in frontier order. `Promise.all` keeps that order, so the result is the same.
- The center's records are requested twice, once for the frontier and once in the fan-out. Both requests use the one `listRecords` oracle, which answers both alike.
- `record.repo` is an optional field of a record. Records that lack it give the expansion endpoint no edges (`ExpandRoute.NoRepoNoEdges`).
- A `did` field that is truthy but not a string, and a request body that is not JSON, are not modelled. The did is an optional string.
- `JSON.stringify(a) !== JSON.stringify(b)` for edges is modelled as value inequality. Two edges with the same fields in a different key order count as equal here, but as different in the source.
- A node whose `introductions` field is truthy but not an array is read as having none, as is the case when the field is missing.
- GraphUtils.ExpandGraph: edges keyed by pair, not by the hyphen-joined string. Where an edge source contains '-', the model can add an edge that the source's string key drops, and then it returns a graph where the source returns null and the info snackbar. `GraphUtils.MergeAsWritten` is the string-keyed merge, and `GraphUtils.HyphenFreeMergeAgrees` proves that both agree when no source contains '-' (see Findings).
- GraphUtils.TappedName: a `name` or `handle` that is not a string is treated as missing. JavaScript would turn it into a string.
- GraphUtils.MergeWithSelfIsNoChange: stated only for coherent graphs, in which one id names one node and one (source, target) pair names one edge. `GraphUtils.SelfMergeNeedsCoherence` shows that the unrestricted claim is false.
- Not modelled at all:
  - `src/lib/server/db.ts` (persistence);
  - `src/components/GraphLayout.ts` and `src/components/GraphStyles.ts` (rendering);
  - `src/lib/stores/snackbar.ts` (UI store);
  - `src/routes/+page.server.ts` (loader);
  - sessions and caching, which none of the modelled files contain.

## Findings

| source | as written | input that shows it | evidently intended | confidence | as-written member | corrected member |
|---|---|---|---|---|---|---|
| src/lib/graphUtils.ts:30-35 | Edges are known by the string `${source}-${target}`, and identity strings may contain '-'. | Current edge "a-b" → "c" and incoming edge "a" → "b-c": both keys are "a-b-c", so the incoming edge is never added, although no edge joins "a" and "b-c". | An edge is known by its (source, target) pair. | not executed | GraphUtils.EdgeKeyCollision, GraphUtils.MergeAsWritten | GraphUtils.MergeLosesNoEdge |
