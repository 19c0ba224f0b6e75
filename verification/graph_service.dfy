/** The server-side build of the introduction graph around one identity
    (`getGraphData`) and the helpers it shares with the expansion endpoint:
    the rank of a profile, the cursor-driven listing of all records of a
    collection, and the batched profile lookup. Every call to the remote
    service is an input: a `Backend` value answers each request. */
module GraphService {
  import opened Collections
  import opened GraphTypes

  const RankLowest: real := 20.0
  const RankHighest: real := 60.0
  /** `getProfiles` accepts at most this many actors per request. */
  const ChunkSize: nat := 25
  const IntroductionCollection := "com.skybemoreblue.intro.introduction"

  // ---------------------------------------------------------------------------
  // Records, profiles and the remote service

  /** The value of an introduction record: the introduced identity, its tags
      and the fields the graph only carries along. */
  datatype RecordValue = RecordValue(subject: Option<string>, tags: Option<seq<string>>, payload: map<string, string>)

  /** A listed record: its AT URI (`at://<author>/<collection>/<key>`), an
      optional `repo` field, and its value. */
  datatype Record = Record(uri: string, repo: Option<string>, value: Option<RecordValue>)

  datatype Profile = Profile(
    did: string,
    handle: string,
    displayName: Option<string>,
    avatar: Option<string>,
    followersCount: Option<nat>,
    followsCount: Option<nat>)

  /** One page of `listRecords`: its records and the cursor of the next page. */
  datatype Page = Page(records: seq<Record>, cursor: Option<string>)

  /** The outcome of one `listRecords` request. */
  datatype PageResponse = Fetched(page: Page) | Failed

  /** The remote service, answering every request the build makes.
      `listRecords(repo, collection)` lists the responses to the successive
      requests of one pagination; `getProfiles` answers None when the request
      throws; `rankScore(followers, follows)` is the logarithmic score before
      clamping, for a positive follower count; `imageToBase64` answers None
      where the conversion yields null. */
  datatype Backend = Backend(
    credentialsSet: bool,
    loginSucceeds: bool,
    resolveHandle: string -> Option<string>,
    listRecords: (string, string) -> seq<PageResponse>,
    getProfiles: seq<string> -> Option<seq<Profile>>,
    rankScore: (nat, nat) -> real,
    imageToBase64: string -> Option<string>)

  // ---------------------------------------------------------------------------
  // Rank

  /** The unclamped score: `log10(0)` is negative infinity. */
  datatype Score = NegativeInfinity | Finite(value: real)

  /** The clamp of `getRank`: above the highest rank gives the highest, below
      the lowest gives the lowest, anything else is kept. */
  function ClampRank(raw: Score): (rank: real)
    ensures RankLowest <= rank <= RankHighest
    ensures raw.Finite? && RankLowest <= raw.value <= RankHighest ==> rank == raw.value
    ensures raw.Finite? && RankHighest < raw.value ==> rank == RankHighest
    ensures (raw.NegativeInfinity? || raw.value < RankLowest) ==> rank == RankLowest
  {
    match raw
    case NegativeInfinity => RankLowest
    case Finite(r) => if RankHighest < r then RankHighest else if RankLowest > r then RankLowest else r
  }

  predicate ScoreAtMost(a: Score, b: Score)
  {
    a.NegativeInfinity? || (b.Finite? && a.value <= b.value)
  }

  /** A higher score never gives a lower rank. */
  lemma ClampRankMonotonic(a: Score, b: Score)
    requires ScoreAtMost(a, b)
    ensures ClampRank(a) <= ClampRank(b)
  {
  }

  /** `profile.followersCount || 0`. */
  function FollowersOrZero(p: Profile): (n: nat)
  {
    if p.followersCount.Some? then p.followersCount.value else 0
  }

  /** `profile.followsCount || 1`: a missing or zero count becomes one. */
  function FollowsOrOne(p: Profile): (n: nat)
    ensures n >= 1
    ensures p.followsCount.Some? && p.followsCount.value > 0 ==> n == p.followsCount.value
    ensures p.followsCount.None? || p.followsCount.value == 0 ==> n == 1
  {
    if p.followsCount.Some? && p.followsCount.value != 0 then p.followsCount.value else 1
  }

  /** `getRank` of a profile's counts. */
  function RankOf(p: Profile, rankScore: (nat, nat) -> real): (rank: real)
    ensures RankLowest <= rank <= RankHighest
    ensures FollowersOrZero(p) == 0 ==> rank == RankLowest
    ensures FollowersOrZero(p) > 0 ==> rank == ClampRank(Finite(rankScore(FollowersOrZero(p), FollowsOrOne(p))))
  {
    var followers := FollowersOrZero(p);
    ClampRank(if followers == 0 then NegativeInfinity else Finite(rankScore(followers, FollowsOrOne(p))))
  }

  // ---------------------------------------------------------------------------
  // Pagination

  /** A cursor is followed only when it is a non-empty string. */
  predicate HasCursor(p: Page)
  {
    p.cursor.Some? && p.cursor.value != ""
  }

  /** The response continues the chain: a page with a cursor. */
  predicate Continues(r: PageResponse)
  {
    r.Fetched? && HasCursor(r.page)
  }

  /** `acc` in front of a result that may have failed. */
  function Prefixed<T>(acc: seq<T>, rest: Option<seq<T>>): (prefixed: Option<seq<T>>)
  {
    match rest
    case None => None
    case Some(r) => Some(acc + r)
  }

  lemma PrefixedNothing<T>(rest: Option<seq<T>>)
    ensures Prefixed([], rest) == rest
  {
    if rest.Some? {
      assert [] + rest.value == rest.value;
    }
  }

  lemma PrefixedTwice<T>(a: seq<T>, b: seq<T>, rest: Option<seq<T>>)
    ensures Prefixed(a, Prefixed(b, rest)) == Prefixed(a + b, rest)
  {
    if rest.Some? {
      assert a + (b + rest.value) == a + b + rest.value;
    }
  }

  /** The records of the cursor chain, or None when a request fails. A chain
      that still has a cursor when the responses run out counts as failed. */
  function Chained(responses: seq<PageResponse>): (records: Option<seq<Record>>)
    decreases |responses|
  {
    if |responses| == 0 then None
    else match responses[0]
      case Failed => None
      case Fetched(p) => if HasCursor(p) then Prefixed(p.records, Chained(responses[1..])) else Some(p.records)
  }

  /** What `fetchAllRecords` returns: the chained records, or [] on failure. */
  function AllRecords(responses: seq<PageResponse>): (records: seq<Record>)
  {
    match Chained(responses)
    case None => []
    case Some(rs) => rs
  }

  /** The records of the pages at positions 0 .. k-1, concatenated in order. */
  function PageRecords(responses: seq<PageResponse>, k: nat): (records: seq<Record>)
    requires k <= |responses|
    requires forall j :: 0 <= j < k ==> responses[j].Fetched?
    decreases k
  {
    if k == 0 then [] else PageRecords(responses, k - 1) + responses[k - 1].page.records
  }

  /** A chain of k pages with cursors ending in a page without one yields the
      records of those k + 1 pages, in page order. */
  lemma {:induction false} AllPagesConcatenated(responses: seq<PageResponse>, k: nat)
    requires k < |responses|
    requires forall j :: 0 <= j < k ==> responses[j].Fetched? && HasCursor(responses[j].page)
    requires responses[k].Fetched? && !HasCursor(responses[k].page)
    ensures Chained(responses).Some?
    ensures AllRecords(responses) == PageRecords(responses, k + 1)
    decreases k
  {
    if k == 0 {
      assert Chained(responses) == Some(responses[0].page.records);
    } else {
      var rest := responses[1..];
      assert forall j :: 0 <= j < k - 1 ==> rest[j] == responses[j + 1];
      AllPagesConcatenated(rest, k - 1);
      PageRecordsShift(responses, k + 1);
    }
  }

  /** Dropping the first page drops its records from the front. */
  lemma {:induction false} PageRecordsShift(responses: seq<PageResponse>, k: nat)
    requires 0 < k <= |responses|
    requires forall j :: 0 <= j < k ==> responses[j].Fetched?
    ensures PageRecords(responses, k) == responses[0].page.records + PageRecords(responses[1..], k - 1)
    decreases k
  {
    if k > 1 {
      PageRecordsShift(responses, k - 1);
      assert responses[1..][k - 2] == responses[k - 1];
    }
  }

  /** A failure anywhere along the chain, including running out of responses
      while a cursor is pending, loses every page: the result is []. */
  lemma {:induction false} FailureGivesNoRecords(responses: seq<PageResponse>, k: nat)
    requires k <= |responses|
    requires forall j :: 0 <= j < k ==> Continues(responses[j])
    requires k == |responses| || responses[k].Failed?
    ensures Chained(responses).None?
    ensures AllRecords(responses) == []
    decreases k
  {
    if k > 0 {
      var rest := responses[1..];
      assert forall j :: 0 <= j < k - 1 ==> rest[j] == responses[j + 1];
      FailureGivesNoRecords(rest, k - 1);
    }
  }

  /** `fetchAllRecords`: one request per page, the first without a cursor and
      each later one with the cursor the previous page returned, until a page
      returns none. `sent` lists the cursor of every request made. */
  method FetchAllRecords(responses: seq<PageResponse>) returns (records: seq<Record>, sent: seq<Option<string>>)
    ensures records == AllRecords(responses)
    ensures 1 <= |sent| <= |responses| + 1 && sent[0] == None
    ensures forall j :: 0 < j < |sent| ==> Continues(responses[j - 1]) && sent[j] == responses[j - 1].page.cursor
    ensures |sent| <= |responses| ==> !Continues(responses[|sent| - 1])
  {
    var acc: seq<Record> := [];
    var cursor: Option<string> := None;
    sent := [];
    var i := 0;
    assert responses[0..] == responses;
    PrefixedNothing(Chained(responses));
    while true
      invariant 0 <= i <= |responses|
      invariant |sent| == i
      invariant forall j :: 0 <= j < i ==> Continues(responses[j])
      invariant i > 0 ==> sent[0] == None
      invariant forall j :: 0 < j < i ==> sent[j] == responses[j - 1].page.cursor
      invariant cursor == if i == 0 then None else responses[i - 1].page.cursor
      invariant Chained(responses) == Prefixed(acc, Chained(responses[i..]))
      decreases |responses| - i
    {
      sent := sent + [cursor];
      if i == |responses| || responses[i].Failed? {
        FailureGivesNoRecords(responses, i);
        return [], sent;
      }
      var page := responses[i].page;
      if !HasCursor(page) {
        acc := acc + page.records;
        return acc, sent;
      }
      assert responses[i..][1..] == responses[i + 1..];
      PrefixedTwice(acc, page.records, Chained(responses[i + 1..]));
      acc := acc + page.records;
      cursor := page.cursor;
      i := i + 1;
    }
  }

  // ---------------------------------------------------------------------------
  // Profiles in chunks

  /** The answers to the chunk requests, concatenated in chunk order; None as
      soon as one request throws. */
  function ProfilesOf(chunks: seq<seq<string>>, getProfiles: seq<string> -> Option<seq<Profile>>): (profiles: Option<seq<Profile>>)
    decreases |chunks|
  {
    if |chunks| == 0 then Some([])
    else match getProfiles(chunks[0])
      case None => None
      case Some(ps) => Prefixed(ps, ProfilesOf(chunks[1..], getProfiles))
  }

  /** What `fetchAllProfiles` returns, None standing for the thrown error. */
  function AllProfiles(dids: seq<string>, getProfiles: seq<string> -> Option<seq<Profile>>): (profiles: Option<seq<Profile>>)
  {
    ProfilesOf(Chunks(dids, ChunkSize), getProfiles)
  }

  /** The ids from position i on; none once i is past the end. */
  function From(dids: seq<string>, i: nat): (rest: seq<string>)
  {
    if i <= |dids| then dids[i..] else []
  }

  /** The end of the slice that starts at i. */
  function ChunkEnd(dids: seq<string>, i: nat): (end: nat)
    requires i < |dids|
    ensures i < end <= |dids| && end - i <= ChunkSize
  {
    if i + ChunkSize <= |dids| then i + ChunkSize else |dids|
  }

  /** The state of `fetchAllProfiles` before the request at position i: the
      slices requested so far are the first chunks, and the profiles gathered
      so far are the front of the final answer. */
  ghost predicate FetchedSoFar(dids: seq<string>, getProfiles: seq<string> -> Option<seq<Profile>>, i: nat,
                               requested: seq<seq<string>>, acc: seq<Profile>)
  {
    && Chunks(dids, ChunkSize) == requested + Chunks(From(dids, i), ChunkSize)
    && AllProfiles(dids, getProfiles) == Prefixed(acc, ProfilesOf(Chunks(From(dids, i), ChunkSize), getProfiles))
  }

  lemma FetchedNothingYet(dids: seq<string>, getProfiles: seq<string> -> Option<seq<Profile>>)
    ensures FetchedSoFar(dids, getProfiles, 0, [], [])
  {
    assert From(dids, 0) == dids;
    assert [] + Chunks(dids, ChunkSize) == Chunks(dids, ChunkSize);
    PrefixedNothing(AllProfiles(dids, getProfiles));
  }

  /** One request: a slice that throws makes the answer throw, one that answers
      extends what was gathered. */
  lemma FetchedStep(dids: seq<string>, getProfiles: seq<string> -> Option<seq<Profile>>, i: nat,
                    requested: seq<seq<string>>, acc: seq<Profile>)
    requires i < |dids| && FetchedSoFar(dids, getProfiles, i, requested, acc)
    ensures var chunk := dids[i..ChunkEnd(dids, i)];
      && requested + [chunk] <= Chunks(dids, ChunkSize)
      && (getProfiles(chunk).None? ==> AllProfiles(dids, getProfiles).None?)
      && (getProfiles(chunk).Some? ==>
            FetchedSoFar(dids, getProfiles, i + ChunkSize, requested + [chunk], acc + getProfiles(chunk).value))
  {
    var chunk := dids[i..ChunkEnd(dids, i)];
    ChunkStep(dids, i, getProfiles);
    var later := Chunks(From(dids, i + ChunkSize), ChunkSize);
    AppendAssociative(requested, [chunk], later);
    AppendAssociative(requested + [chunk], later, []);
    if getProfiles(chunk).Some? {
      PrefixedTwice(acc, getProfiles(chunk).value, ProfilesOf(later, getProfiles));
    }
  }

  lemma FetchedAll(dids: seq<string>, getProfiles: seq<string> -> Option<seq<Profile>>, i: nat,
                   requested: seq<seq<string>>, acc: seq<Profile>)
    requires |dids| <= i && FetchedSoFar(dids, getProfiles, i, requested, acc)
    ensures AllProfiles(dids, getProfiles) == Some(acc)
    ensures requested == Chunks(dids, ChunkSize)
  {
    assert From(dids, i) == [];
    assert acc + [] == acc;
    assert requested + [] == requested;
  }

  /** `fetchAllProfiles`: `dids.slice(i, i + 25)` for i = 0, 25, 50, ... while
      i < |dids|, one request per slice. `requested` lists the slices sent:
      the chunks of the list up to the first request that throws, all of
      them when none does. */
  method FetchAllProfiles(dids: seq<string>, getProfiles: seq<string> -> Option<seq<Profile>>)
    returns (profiles: Option<seq<Profile>>, requested: seq<seq<string>>)
    ensures profiles == AllProfiles(dids, getProfiles)
    ensures profiles.Some? ==> requested == Chunks(dids, ChunkSize)
    ensures profiles.Some? ==> Flatten(requested) == dids
    ensures requested <= Chunks(dids, ChunkSize)
  {
    var acc: seq<Profile> := [];
    requested := [];
    var i := 0;
    FetchedNothingYet(dids, getProfiles);
    while i < |dids|
      invariant FetchedSoFar(dids, getProfiles, i, requested, acc)
      invariant requested <= Chunks(dids, ChunkSize)
      decreases |dids| - i
    {
      var chunk := dids[i..ChunkEnd(dids, i)];
      FetchedStep(dids, getProfiles, i, requested, acc);
      requested := requested + [chunk];
      var response := getProfiles(chunk);
      if response.None? {
        return None, requested;
      }
      acc := acc + response.value;
      i := i + ChunkSize;
    }
    FetchedAll(dids, getProfiles, i, requested, acc);
    profiles := Some(acc);
  }

  /** The chunk taken at position i, the chunks after it, and the answer
      to the requests from position i on. */
  lemma ChunkStep(dids: seq<string>, i: nat, getProfiles: seq<string> -> Option<seq<Profile>>)
    requires i < |dids|
    ensures var later := Chunks(From(dids, i + ChunkSize), ChunkSize);
      && Chunks(From(dids, i), ChunkSize) == [dids[i..ChunkEnd(dids, i)]] + later
      && ProfilesOf(Chunks(From(dids, i), ChunkSize), getProfiles)
         == match getProfiles(dids[i..ChunkEnd(dids, i)])
            case None => None
            case Some(ps) => Prefixed(ps, ProfilesOf(later, getProfiles))
  {
    var rest := From(dids, i);
    ChunksFrom(rest, ChunkSize);
    var end := ChunkEnd(dids, i);
    var k := if |rest| < ChunkSize then |rest| else ChunkSize;
    assert rest[..k] == dids[i..end];
    assert rest[k..] == From(dids, i + ChunkSize);
    var later := Chunks(From(dids, i + ChunkSize), ChunkSize);
    assert ([dids[i..end]] + later)[1..] == later;
  }

  /** When every chunk request answers, the profiles are the answers
      concatenated in chunk order. */
  lemma {:induction false} ProfilesConcatenated(chunks: seq<seq<string>>, getProfiles: seq<string> -> Option<seq<Profile>>)
    requires forall k :: 0 <= k < |chunks| ==> getProfiles(chunks[k]).Some?
    ensures ProfilesOf(chunks, getProfiles) == Some(Answers(chunks, getProfiles))
    decreases |chunks|
  {
    if |chunks| > 0 {
      assert forall k :: 0 <= k < |chunks| - 1 ==> chunks[1..][k] == chunks[k + 1];
      ProfilesConcatenated(chunks[1..], getProfiles);
    }
  }

  /** The answers to the chunk requests, in chunk order, where every one answers. */
  function Answers(chunks: seq<seq<string>>, getProfiles: seq<string> -> Option<seq<Profile>>): (profiles: seq<Profile>)
    requires forall k :: 0 <= k < |chunks| ==> getProfiles(chunks[k]).Some?
    decreases |chunks|
  {
    if |chunks| == 0 then []
    else getProfiles(chunks[0]).value + Answers(chunks[1..], getProfiles)
  }

  /** One chunk request that throws makes the whole lookup throw. */
  lemma {:induction false} ProfileFailurePropagates(chunks: seq<seq<string>>, getProfiles: seq<string> -> Option<seq<Profile>>, k: nat)
    requires k < |chunks| && getProfiles(chunks[k]).None?
    ensures ProfilesOf(chunks, getProfiles).None?
    decreases k
  {
    if k > 0 && getProfiles(chunks[0]).Some? {
      assert chunks[1..][k - 1] == chunks[k];
      ProfileFailurePropagates(chunks[1..], getProfiles, k - 1);
    }
  }

  // ---------------------------------------------------------------------------
  // Frontier

  /** `record.value?.subject` when it is a non-empty string. */
  function Subject(r: Record): (subject: Option<string>)
  {
    if r.value.Some? && r.value.value.subject.Some? && r.value.value.subject.value != "" then r.value.value.subject else None
  }

  /** The subjects of the records that have one, in record order, repeats kept. */
  function Subjects(records: seq<Record>): (subjects: seq<string>)
    ensures forall s :: s in subjects <==> exists r :: r in records && Subject(r) == Some(s)
    decreases |records|
  {
    if |records| == 0 then []
    else
      var init := records[..|records| - 1];
      var last := records[|records| - 1];
      assert records == init + [last];
      Subjects(init) + (if Subject(last).Some? then [Subject(last).value] else [])
  }

  lemma SubjectsStep(records: seq<Record>, i: nat)
    requires i < |records|
    ensures Subjects(records[..i + 1])
      == Subjects(records[..i]) + (if Subject(records[i]).Some? then [Subject(records[i]).value] else [])
  {
    assert records[..i + 1][..i] == records[..i];
  }

  /** `initialDids` read back in insertion order: the center, then every
      subject of its records, each once. */
  function Frontier(center: string, records: seq<Record>): (frontier: seq<string>)
  {
    Dedup([center] + Subjects(records))
  }

  /** The frontier starts with the center, repeats nothing, and holds exactly
      the center and the subjects of its records. */
  lemma FrontierShape(center: string, records: seq<Record>)
    ensures var dids := Frontier(center, records);
      && |dids| > 0 && dids[0] == center && NoDups(dids)
      && forall d :: d in dids <==> d == center || exists r :: r in records && Subject(r) == Some(d)
  {
    DedupHead([center] + Subjects(records));
  }

  /** Frontier of the first i records, one more record at a time. */
  lemma FrontierStep(center: string, records: seq<Record>, i: nat)
    requires i < |records|
    ensures var s := Subject(records[i]);
      Dedup([center] + Subjects(records[..i + 1]))
        == if s.Some? then SetAdd(Dedup([center] + Subjects(records[..i])), s.value)
           else Dedup([center] + Subjects(records[..i]))
  {
    SubjectsStep(records, i);
    var s := Subject(records[i]);
    if s.Some? {
      AppendAssociative([center], Subjects(records[..i]), [s.value]);
      DedupSnoc([center] + Subjects(records[..i]), s.value);
    } else {
      assert Subjects(records[..i + 1]) == Subjects(records[..i]);
    }
  }

  /** The `initialDids` set built from the center and the `forEach` over its records. */
  method CollectFrontier(center: string, records: seq<Record>) returns (dids: seq<string>)
    ensures dids == Frontier(center, records)
  {
    dids := [center];
    assert Dedup([center]) == [center] by {
      assert [center][..0] == [];
    }
    var i := 0;
    while i < |records|
      invariant 0 <= i <= |records|
      invariant dids == Dedup([center] + Subjects(records[..i]))
    {
      FrontierStep(center, records, i);
      var subject := Subject(records[i]);
      if subject.Some? {
        dids := SetAdd(dids, subject.value);
      }
      i := i + 1;
    }
    assert records[..i] == records;
  }

  // ---------------------------------------------------------------------------
  // Fan-out and grouping

  /** The introduction records of every identity of the frontier, one
      identity after another, in frontier order. */
  function RecordsOfAll(listRecords: (string, string) -> seq<PageResponse>, dids: seq<string>): (records: seq<Record>)
    ensures forall r :: r in records <==> exists d :: d in dids && r in AllRecords(listRecords(d, IntroductionCollection))
    decreases |dids|
  {
    if |dids| == 0 then []
    else
      var init := dids[..|dids| - 1];
      var last := dids[|dids| - 1];
      assert dids == init + [last];
      RecordsOfAll(listRecords, init) + AllRecords(listRecords(last, IntroductionCollection))
  }

  /** The `Promise.all` over the frontier followed by `flat()`, the requests
      taken one after another. */
  method FanOut(listRecords: (string, string) -> seq<PageResponse>, dids: seq<string>) returns (records: seq<Record>)
    ensures records == RecordsOfAll(listRecords, dids)
  {
    records := [];
    var i := 0;
    while i < |dids|
      invariant 0 <= i <= |dids|
      invariant records == RecordsOfAll(listRecords, dids[..i])
    {
      assert dids[..i + 1][..i] == dids[..i];
      var fetched, _ := FetchAllRecords(listRecords(dids[i], IntroductionCollection));
      records := records + fetched;
      i := i + 1;
    }
    assert dids[..i] == dids;
  }

  /** `record.uri.split('/')[2]`; None where that piece does not exist. */
  function AuthorOf(uri: string): (author: Option<string>)
  {
    var parts := Split(uri, '/');
    if |parts| > 2 then Some(parts[2]) else None
  }

  /** In an AT URI `at://<did>/<path>` the author is the did. */
  lemma AuthorOfAtUri(did: string, path: string)
    requires '/' !in did
    ensures AuthorOf("at://" + did + "/" + path) == Some(did)
  {
    var tail := did + ['/'] + path;
    SplitAfterPiece(did, '/', path);
    SplitAfterPiece("", '/', tail);
    SplitAfterPiece("at:", '/', "" + ['/'] + tail);
    assert "at://" + did + "/" + path == "at:" + ['/'] + ("" + ['/'] + tail);
  }

  /** `{ ...record.value, author: authorDid }`. */
  function IntroOf(r: Record): (intro: Introduction)
  {
    var v := if r.value.Some? then r.value.value else RecordValue(None, None, map[]);
    Introduction(AuthorOf(r.uri), if Subject(r).Some? then Subject(r).value else "", v.tags, v.payload)
  }

  /** `introRecordsMap` after the `forEach`: each subject mapped to the
      introductions about it. */
  function Grouped(records: seq<Record>): (groups: map<string, seq<Introduction>>)
    decreases |records|
  {
    if |records| == 0 then map[]
    else
      var groups := Grouped(records[..|records| - 1]);
      var last := records[|records| - 1];
      match Subject(last)
      case None => groups
      case Some(s) => groups[s := IntrosFor(groups, s) + [IntroOf(last)]]
  }

  /** `map.get(s) || []`. */
  function IntrosFor(groups: map<string, seq<Introduction>>, s: string): (intros: seq<Introduction>)
  {
    if s in groups then groups[s] else []
  }

  function About(s: string): Record -> bool
  {
    r => Subject(r) == Some(s)
  }

  /** The introductions about `s`: one per record whose subject is `s`, in record order. */
  function IntrosAbout(records: seq<Record>, s: string): (intros: seq<Introduction>)
  {
    MapSeq(Filter(records, About(s)), IntroOf)
  }

  lemma GroupedStep(records: seq<Record>, i: nat)
    requires i < |records|
    ensures Grouped(records[..i + 1]) ==
      match Subject(records[i])
      case None => Grouped(records[..i])
      case Some(s) => Grouped(records[..i])[s := IntrosFor(Grouped(records[..i]), s) + [IntroOf(records[i])]]
  {
    assert records[..i + 1][..i] == records[..i];
  }

  /** The groups have exactly the subjects as keys, and each subject's group
      is the introductions about it, in record order. */
  lemma {:induction false} GroupedIsIntrosAbout(records: seq<Record>)
    ensures forall s :: s in Grouped(records) <==> s in Subjects(records)
    ensures forall s :: IntrosFor(Grouped(records), s) == IntrosAbout(records, s)
    decreases |records|
  {
    if |records| > 0 {
      var init := records[..|records| - 1];
      var last := records[|records| - 1];
      assert records == init + [last];
      GroupedIsIntrosAbout(init);
      forall s
        ensures IntrosFor(Grouped(records), s) == IntrosAbout(records, s)
      {
        FilterSnoc(init, last, About(s));
        if Subject(last) == Some(s) {
          assert About(s)(last);
          MapSeqSnoc(Filter(init, About(s)), last, IntroOf);
          assert IntrosFor(Grouped(records), s) == IntrosFor(Grouped(init), s) + [IntroOf(last)];
        } else {
          assert !About(s)(last);
          assert Filter(records, About(s)) == Filter(init, About(s));
          assert IntrosFor(Grouped(records), s) == IntrosFor(Grouped(init), s);
        }
      }
    }
  }

  /** The `introRecordsMap` loop. */
  method GroupBySubject(records: seq<Record>) returns (groups: map<string, seq<Introduction>>)
    ensures groups == Grouped(records)
  {
    groups := map[];
    var i := 0;
    while i < |records|
      invariant 0 <= i <= |records|
      invariant groups == Grouped(records[..i])
    {
      GroupedStep(records, i);
      var subject := Subject(records[i]);
      if subject.Some? {
        var intro := IntroOf(records[i]);
        if subject.value in groups {
          groups := groups[subject.value := groups[subject.value] + [intro]];
        } else {
          assert [] + [intro] == [intro];
          groups := groups[subject.value := [intro]];
        }
      }
      i := i + 1;
    }
    assert records[..i] == records;
  }

  // ---------------------------------------------------------------------------
  // Nodes

  /** `profile.displayName || profile.handle`. */
  function DisplayName(p: Profile): (name: string)
  {
    if p.displayName.Some? && p.displayName.value != "" then p.displayName.value else p.handle
  }

  /** `profile.avatar ? await imageToBase64(profile.avatar) : null`. */
  function ImageOf(p: Profile, imageToBase64: string -> Option<string>): (img: Value)
  {
    if p.avatar.Some? && p.avatar.value != "" then
      match imageToBase64(p.avatar.value)
      case Some(data) => Str(data)
      case None => Null
    else Null
  }

  /** The fields every emitted node has: `id`, `img`, `name`, `rank`, `handle`. */
  function BaseData(p: Profile, b: Backend): (data: map<string, Value>)
  {
    map["id" := Str(p.did), "img" := ImageOf(p, b.imageToBase64), "name" := Str(DisplayName(p)),
        "rank" := Num(RankOf(p, b.rankScore)), "handle" := Str(p.handle)]
  }

  /** Every tag of every introduction that has tags, in order, repeats kept. */
  function AllTags(intros: seq<Introduction>): (tags: seq<string>)
    ensures forall t :: t in tags <==> exists x :: x in intros && x.tags.Some? && t in x.tags.value
    decreases |intros|
  {
    if |intros| == 0 then []
    else
      var init := intros[..|intros| - 1];
      var last := intros[|intros| - 1];
      assert intros == init + [last];
      AllTags(init) + (if last.tags.Some? then last.tags.value else [])
  }

  /** `Array.from(allTags)`. */
  function TagUnion(intros: seq<Introduction>): (tags: seq<string>)
  {
    Dedup(AllTags(intros))
  }

  lemma AllTagsStep(intros: seq<Introduction>, i: nat)
    requires i < |intros|
    ensures AllTags(intros[..i + 1]) == AllTags(intros[..i]) + (if intros[i].tags.Some? then intros[i].tags.value else [])
  {
    assert intros[..i + 1][..i] == intros[..i];
  }

  /** The union after one more tag of the current introduction. */
  lemma TagStep(earlier: seq<string>, ts: seq<string>, j: nat)
    requires j < |ts|
    ensures Dedup(earlier + ts[..j + 1]) == SetAdd(Dedup(earlier + ts[..j]), ts[j])
  {
    assert ts[..j + 1] == ts[..j] + [ts[j]];
    AppendAssociative(earlier, ts[..j], [ts[j]]);
    DedupSnoc(earlier + ts[..j], ts[j]);
  }

  /** The `allTags` set filled by the nested `forEach`. */
  method CollectTags(intros: seq<Introduction>) returns (tags: seq<string>)
    ensures tags == TagUnion(intros)
  {
    tags := [];
    var i := 0;
    while i < |intros|
      invariant 0 <= i <= |intros|
      invariant tags == Dedup(AllTags(intros[..i]))
    {
      AllTagsStep(intros, i);
      if intros[i].tags.Some? {
        var ts := intros[i].tags.value;
        var j := 0;
        assert AllTags(intros[..i]) + ts[..0] == AllTags(intros[..i]);
        while j < |ts|
          invariant 0 <= j <= |ts|
          invariant tags == Dedup(AllTags(intros[..i]) + ts[..j])
        {
          TagStep(AllTags(intros[..i]), ts, j);
          tags := SetAdd(tags, ts[j]);
          j := j + 1;
        }
        assert ts[..j] == ts;
      } else {
        assert AllTags(intros[..i + 1]) == AllTags(intros[..i]);
      }
      i := i + 1;
    }
    assert intros[..i] == intros;
  }

  /** A node of the full build: the base fields, the introductions about the
      profile, and the union of their tags. */
  function FullNode(p: Profile, groups: map<string, seq<Introduction>>, b: Backend): (node: GraphNode)
  {
    var intros := IntrosFor(groups, p.did);
    GraphNode(BaseData(p, b)["introductions" := Intros(intros)]["tags" := Strs(TagUnion(intros))])
  }

  /** What a node of the full build holds. */
  lemma FullNodeFields(p: Profile, groups: map<string, seq<Introduction>>, b: Backend)
    ensures var d := FullNode(p, groups, b).data;
      var intros := IntrosFor(groups, p.did);
      && d.Keys == {"id", "img", "name", "rank", "handle", "introductions", "tags"}
      && d["id"] == Str(p.did) && d["handle"] == Str(p.handle)
      && d["name"] == Str(if p.displayName.Some? && p.displayName.value != "" then p.displayName.value else p.handle)
      && d["rank"] == Num(RankOf(p, b.rankScore))
      && RankLowest <= d["rank"].n <= RankHighest
      && (FollowersOrZero(p) == 0 ==> d["rank"].n == RankLowest)
      && d["introductions"] == Intros(intros)
      && d["tags"].Strs? && NoDups(d["tags"].strs)
      && forall t :: t in d["tags"].strs <==> exists x :: x in intros && x.tags.Some? && t in x.tags.value
  {
  }

  /** One node per profile, in profile order. */
  function ProfileNodes(profiles: seq<Profile>, groups: map<string, seq<Introduction>>, b: Backend): (nodes: seq<GraphNode>)
    ensures |nodes| == |profiles|
    ensures forall k :: 0 <= k < |profiles| ==> nodes[k] == FullNode(profiles[k], groups, b)
    decreases |profiles|
  {
    if |profiles| == 0 then []
    else ProfileNodes(profiles[..|profiles| - 1], groups, b) + [FullNode(profiles[|profiles| - 1], groups, b)]
  }

  /** The keys of `didToProfileMap`. */
  function ProfileDids(profiles: seq<Profile>): (dids: set<string>)
    ensures forall p :: p in profiles ==> p.did in dids
    ensures forall d :: d in dids ==> exists p :: p in profiles && p.did == d
  {
    set p | p in profiles :: p.did
  }

  lemma EmitStep(profiles: seq<Profile>, i: nat, groups: map<string, seq<Introduction>>, b: Backend)
    requires i < |profiles|
    ensures ProfileNodes(profiles[..i + 1], groups, b) == ProfileNodes(profiles[..i], groups, b) + [FullNode(profiles[i], groups, b)]
    ensures ProfileDids(profiles[..i + 1]) == ProfileDids(profiles[..i]) + {profiles[i].did}
  {
    assert profiles[..i + 1][..i] == profiles[..i];
    ProfileDidsStep(profiles, i);
  }

  lemma ProfileDidsStep(profiles: seq<Profile>, i: nat)
    requires i < |profiles|
    ensures ProfileDids(profiles[..i + 1]) == ProfileDids(profiles[..i]) + {profiles[i].did}
  {
    assert profiles[..i + 1] == profiles[..i] + [profiles[i]];
  }

  /** Every identity with a profile is the id of a node. */
  lemma NodesCoverProfiles(profiles: seq<Profile>, groups: map<string, seq<Introduction>>, b: Backend)
    ensures forall d :: d in ProfileDids(profiles) ==> Some(Str(d)) in NodeIds(ProfileNodes(profiles, groups, b))
  {
    var nodes := ProfileNodes(profiles, groups, b);
    forall d | d in ProfileDids(profiles)
      ensures Some(Str(d)) in NodeIds(nodes)
    {
      var k :| 0 <= k < |profiles| && profiles[k].did == d;
      FullNodeId(profiles[k], groups, b);
      assert nodes[k] in nodes;
    }
  }

  lemma FullNodeId(p: Profile, groups: map<string, seq<Introduction>>, b: Backend)
    ensures NodeId(FullNode(p, groups, b)) == Some(Str(p.did))
  {
  }

  /** The `for (const profile of profiles)` loop: fills `didToProfileMap` and
      pushes one node per profile. */
  method EmitNodes(profiles: seq<Profile>, groups: map<string, seq<Introduction>>, b: Backend)
    returns (nodes: seq<GraphNode>, known: set<string>)
    ensures nodes == ProfileNodes(profiles, groups, b)
    ensures known == ProfileDids(profiles)
  {
    nodes := [];
    known := {};
    var i := 0;
    while i < |profiles|
      invariant 0 <= i <= |profiles|
      invariant nodes == ProfileNodes(profiles[..i], groups, b)
      invariant known == ProfileDids(profiles[..i])
    {
      var profile := profiles[i];
      EmitStep(profiles, i, groups, b);
      known := known + {profile.did};
      var node := EmitNode(profile, groups, b);
      nodes := nodes + [node];
      i := i + 1;
    }
    assert profiles[..i] == profiles;
  }

  /** The body of that loop: the node pushed for one profile. */
  method EmitNode(profile: Profile, groups: map<string, seq<Introduction>>, b: Backend) returns (node: GraphNode)
    ensures node == FullNode(profile, groups, b)
  {
    var rank := RankOf(profile, b.rankScore);
    var intros := IntrosFor(groups, profile.did);
    var tags := CollectTags(intros);
    var data := map["id" := Str(profile.did), "img" := ImageOf(profile, b.imageToBase64),
                    "name" := Str(DisplayName(profile)), "rank" := Num(rank), "handle" := Str(profile.handle)];
    node := GraphNode(data["introductions" := Intros(intros)]["tags" := Strs(tags)]);
  }

  // ---------------------------------------------------------------------------
  // Edges

  /** One edge from `source` to each target, in order. */
  function EdgesFrom(source: string, targets: seq<string>): (edges: seq<GraphEdge>)
    ensures |edges| == |targets|
    ensures forall k :: 0 <= k < |targets| ==> edges[k] == GraphEdge(source, targets[k], map[])
  {
    seq(|targets|, k requires 0 <= k < |targets| => GraphEdge(source, targets[k], map[]))
  }

  function IsKnown(known: set<string>): string -> bool
  {
    s => s in known
  }

  /** The edges of the full build: when the center has a profile, one edge
      from it to each subject of its records that has a profile, in record
      order, repeats kept; none otherwise. */
  function CenterEdges(center: string, records: seq<Record>, known: set<string>): (edges: seq<GraphEdge>)
  {
    if center in known then EdgesFrom(center, Filter(Subjects(records), IsKnown(known))) else []
  }

  lemma CenterEdgesStep(center: string, records: seq<Record>, known: set<string>, i: nat)
    requires i < |records|
    ensures var s := Subject(records[i]);
      CenterEdges(center, records[..i + 1], known) ==
        CenterEdges(center, records[..i], known)
        + (if s.Some? && center in known && s.value in known then [GraphEdge(center, s.value, map[])] else [])
  {
    SubjectsStep(records, i);
    var s := Subject(records[i]);
    var before := Subjects(records[..i]);
    if s.Some? {
      FilterSnoc(before, s.value, IsKnown(known));
    } else {
      assert Subjects(records[..i + 1]) == before;
    }
    var targets := Filter(Subjects(records[..i + 1]), IsKnown(known));
    var earlier := Filter(before, IsKnown(known));
    if center in known && |targets| > |earlier| {
      assert targets == earlier + [targets[|earlier|]];
      assert EdgesFrom(center, targets) == EdgesFrom(center, earlier) + [GraphEdge(center, targets[|earlier|], map[])];
    }
  }

  /** The `centerNodeIntroRecords.forEach` that pushes the edges. */
  method EmitCenterEdges(center: string, records: seq<Record>, known: set<string>) returns (edges: seq<GraphEdge>)
    ensures edges == CenterEdges(center, records, known)
  {
    edges := [];
    var i := 0;
    while i < |records|
      invariant 0 <= i <= |records|
      invariant edges == CenterEdges(center, records[..i], known)
    {
      CenterEdgesStep(center, records, known, i);
      var subject := Subject(records[i]);
      if subject.Some? && center in known && subject.value in known {
        edges := edges + [GraphEdge(center, subject.value, map[])];
      }
      i := i + 1;
    }
    assert records[..i] == records;
  }

  /** Every edge leaves the center for a subject of a center record that has
      a profile; there is
      one for each subject with a profile when the center has one, and none
      when it has not. */
  lemma CenterEdgesShape(center: string, records: seq<Record>, known: set<string>)
    ensures var edges := CenterEdges(center, records, known);
      && (forall e :: e in edges ==> e.source == center && center in known && e.target in known && e.extra == map[])
      && (forall e :: e in edges ==> exists r :: r in records && Subject(r) == Some(e.target))
      && (center !in known ==> edges == [])
      && (center in known ==> forall r :: r in records && Subject(r).Some? && Subject(r).value in known ==>
            GraphEdge(center, Subject(r).value, map[]) in edges)
      && (center in known ==> |edges| == |Filter(Subjects(records), IsKnown(known))|)
  {
    var edges := CenterEdges(center, records, known);
    if center in known {
      var targets := Filter(Subjects(records), IsKnown(known));
      forall e | e in edges
        ensures e.source == center && e.target in known && e.extra == map[]
        ensures exists r :: r in records && Subject(r) == Some(e.target)
      {
        var k :| 0 <= k < |edges| && edges[k] == e;
        assert targets[k] in targets;
        assert targets[k] in Subjects(records);
      }
      forall r | r in records && Subject(r).Some? && Subject(r).value in known
        ensures GraphEdge(center, Subject(r).value, map[]) in edges
      {
        var s := Subject(r).value;
        assert s in targets;
        var k :| 0 <= k < |targets| && targets[k] == s;
        assert edges[k] == GraphEdge(center, s, map[]);
      }
    }
  }

  // ---------------------------------------------------------------------------
  // The build

  datatype GraphResult = GraphResult(graphData: GraphData, initialCenterDid: string)

  /** What the build returns on missing credentials and on every thrown error. */
  const EmptyResult := GraphResult(GraphData([], []), "")

  /** `getGraphData(centerNodeHandle)`. */
  function BuildGraph(handle: string, b: Backend): (result: GraphResult)
  {
    if !b.credentialsSet || !b.loginSucceeds then EmptyResult
    else match b.resolveHandle(handle)
      case None => EmptyResult
      case Some(center) =>
        var centerRecords := AllRecords(b.listRecords(center, IntroductionCollection));
        var frontier := Frontier(center, centerRecords);
        var groups := Grouped(RecordsOfAll(b.listRecords, frontier));
        match AllProfiles(frontier, b.getProfiles)
        case None => EmptyResult
        case Some(profiles) =>
          GraphResult(GraphData(ProfileNodes(profiles, groups, b), CenterEdges(center, centerRecords, ProfileDids(profiles))), center)
  }

  /** `getGraphData`, step by step. */
  method GetGraphData(handle: string, b: Backend) returns (result: GraphResult)
    ensures result == BuildGraph(handle, b)
  {
    if !b.credentialsSet {
      return EmptyResult;
    }
    if !b.loginSucceeds {
      return EmptyResult;
    }
    var resolved := b.resolveHandle(handle);
    if resolved.None? {
      return EmptyResult;
    }
    var center := resolved.value;
    var centerRecords, _ := FetchAllRecords(b.listRecords(center, IntroductionCollection));
    var frontier := CollectFrontier(center, centerRecords);
    var allRecords := FanOut(b.listRecords, frontier);
    var groups := GroupBySubject(allRecords);
    var profiles, _ := FetchAllProfiles(frontier, b.getProfiles);
    if profiles.None? {
      return EmptyResult;
    }
    var nodes, known := EmitNodes(profiles.value, groups, b);
    var edges := EmitCenterEdges(center, centerRecords, known);
    return GraphResult(GraphData(nodes, edges), center);
  }

  /** Missing credentials, a failed login, an unresolvable handle and a
      profile request that throws all give the empty result. */
  lemma BuildFailuresGiveEmpty(handle: string, b: Backend)
    ensures !b.credentialsSet || !b.loginSucceeds || b.resolveHandle(handle).None? ==> BuildGraph(handle, b) == EmptyResult
    ensures b.resolveHandle(handle).Some? ==>
      var center := b.resolveHandle(handle).value;
      AllProfiles(Frontier(center, AllRecords(b.listRecords(center, IntroductionCollection))), b.getProfiles).None?
      ==> BuildGraph(handle, b) == EmptyResult
  {
  }

  /** The edges of the full build leave the center and join two node ids. */
  lemma CenterGraphHasNoDanglingEdge(center: string, centerRecords: seq<Record>, profiles: seq<Profile>,
                                     groups: map<string, seq<Introduction>>, b: Backend)
    ensures var nodes := ProfileNodes(profiles, groups, b);
      forall e :: e in CenterEdges(center, centerRecords, ProfileDids(profiles)) ==>
        && e.source == center
        && Some(Str(e.source)) in NodeIds(nodes)
        && Some(Str(e.target)) in NodeIds(nodes)
  {
    CenterEdgesShape(center, centerRecords, ProfileDids(profiles));
    NodesCoverProfiles(profiles, groups, b);
  }

  /** A successful build has a node for every identity an edge touches, and
      every edge leaves the center it reports. */
  lemma BuildHasNoDanglingEdge(handle: string, b: Backend)
    ensures var g := BuildGraph(handle, b).graphData;
      forall e :: e in g.edges ==>
        && e.source == BuildGraph(handle, b).initialCenterDid
        && Some(Str(e.source)) in NodeIds(g.nodes)
        && Some(Str(e.target)) in NodeIds(g.nodes)
  {
    if b.credentialsSet && b.loginSucceeds && b.resolveHandle(handle).Some? {
      var center := b.resolveHandle(handle).value;
      var centerRecords := AllRecords(b.listRecords(center, IntroductionCollection));
      var frontier := Frontier(center, centerRecords);
      var groups := Grouped(RecordsOfAll(b.listRecords, frontier));
      var answer := AllProfiles(frontier, b.getProfiles);
      if answer.Some? {
        var profiles := answer.value;
        assert BuildGraph(handle, b) == GraphResult(GraphData(ProfileNodes(profiles, groups, b),
          CenterEdges(center, centerRecords, ProfileDids(profiles))), center);
        CenterGraphHasNoDanglingEdge(center, centerRecords, profiles, groups, b);
      }
    }
  }
}
