/** Planning an import against the stored state: gate, snapshots, audit row and the decision to
    refuse, to do nothing or to append. */
module ImportPlan {
  import opened Wrappers
  import opened Sorting
  import opened CanonicalJson
  import opened ImportHistory

  // ---------------------------------------------------------------- rows

  /** A gate registration: its commitment digest and its other columns. */
  datatype GateRow = GateRow(digest: Text, terms: Json)

  datatype VideoRow = VideoRow(creator: Text, videoId: Text, facts: Json)

  /** The seven columns that identify an import. */
  datatype AuditKey = AuditKey(importer: Text, rule: Text, registration: Text, gate: Text,
    captures: Text, decisions: Text, discovery: Text)

  datatype Counts = Counts(captures: nat, decisions: nat, videos: nat)

  datatype ImportRow = ImportRow(id: nat, key: AuditKey, counts: Counts)

  datatype Stored = Stored(captures: seq<Row>, decisions: seq<Row>, gates: seq<GateRow>,
    videos: seq<VideoRow>, imports: seq<ImportRow>)

  const KEY_DIGEST: Text := [100]
  const KEY_TERMS: Text := [116]
  const KEY_CREATOR: Text := [99]
  const KEY_VIDEO: Text := [118]
  const KEY_FACTS: Text := [102]

  function GateJson(g: GateRow): Json {
    Obj([Member(KEY_DIGEST, Str(g.digest)), Member(KEY_TERMS, g.terms)])
  }

  function VideoJson(v: VideoRow): Json {
    Obj([Member(KEY_CREATOR, Str(v.creator)), Member(KEY_VIDEO, Str(v.videoId)), Member(KEY_FACTS, v.facts)])
  }

  function VideosJson(videos: seq<VideoRow>): Json {
    Arr(seq(|videos|, i requires 0 <= i < |videos| => VideoJson(videos[i])))
  }

  function CountsJson(c: Counts): Json {
    Obj([Member(KEY_CREATOR, Number(c.captures)), Member(KEY_DIGEST, Number(c.decisions)),
         Member(KEY_VIDEO, Number(c.videos))])
  }

  // ---------------------------------------------------------------- API snapshots

  /** A fetched video: its two instants when they parse, its length in seconds when known. */
  datatype Video = Video(videoId: Text, published: Option<int>, fetched: Option<int>, duration: Option<real>,
      rest: Json)

  datatype Classified = Classified(videoId: Text, facts: Json)

  datatype Creator = Creator(key: Text, manifest: seq<Classified>, videos: seq<Video>)

  datatype InputError = DuplicateApiVideo | AssignedTwice | ManifestMismatch | InvalidVideo

  predicate ValidVideo(v: Video) {
    && v.published.Some?
    && v.fetched.Some?
    && v.published.value <= v.fetched.value
    && (v.duration.Some? ==> 0.0 <= v.duration.value && v.duration.value == v.duration.value.Floor as real)
  }

  ghost predicate Lasting(v: Video, published: int, lag: nat, seconds: Option<nat>) {
    && v.published == Some(published) && v.fetched == Some(published + lag)
    && v.duration == if seconds.Some? then Some(seconds.value as real) else None
  }

  /** A video is valid exactly if it was fetched some time after it was published and lasts a
      whole number of seconds, if that is known. */
  lemma ValidExactly(v: Video)
    ensures ValidVideo(v) <==> exists published, lag, seconds :: Lasting(v, published, lag, seconds)
  {
    if ValidVideo(v) {
      var seconds := if v.duration.Some? then Some(v.duration.value.Floor as nat) else None;
      assert Lasting(v, v.published.value, v.fetched.value - v.published.value, seconds);
    }
  }

  function Ids(manifest: seq<Classified>): set<Text> {
    set c | c in manifest :: c.videoId
  }

  /** The entry a map built from the manifest keeps: the last with that id. */
  function Entry(manifest: seq<Classified>, videoId: Text): (c: Classified)
    requires videoId in Ids(manifest)
    ensures c in manifest && c.videoId == videoId
    ensures exists i :: 0 <= i < |manifest| && manifest[i] == c && forall j :: i < j < |manifest| ==>
        manifest[j].videoId != videoId
  {
    var last := manifest[|manifest| - 1];
    if last.videoId == videoId then last
    else
      assert manifest == manifest[..|manifest| - 1] + [last];
      Entry(manifest[..|manifest| - 1], videoId)
  }

  /** A length that is a whole number of seconds, or none. */
  function Seconds(duration: Option<real>): Json {
    if duration.Some? then Number(duration.value.Floor) else Null
  }

  function ApiRow(creator: Creator, v: Video): (row: VideoRow)
    requires v.videoId in Ids(creator.manifest) && ValidVideo(v)
    ensures row.creator == creator.key && row.videoId == v.videoId
  {
    VideoRow(creator.key, v.videoId, Arr([Number(v.published.value), Number(v.fetched.value),
      Seconds(v.duration), v.rest, Entry(creator.manifest, v.videoId).facts]))
  }

  /** A row tells which video it was made of. */
  lemma RowsTellVideos(creator: Creator, v: Video, w: Video)
    requires v.videoId in Ids(creator.manifest) && ValidVideo(v) && w.videoId in Ids(creator.manifest) && ValidVideo(w)
    requires ApiRow(creator, v) == ApiRow(creator, w)
    ensures v == w
  {
    var a, b := ApiRow(creator, v).facts.items, ApiRow(creator, w).facts.items;
    assert a[0] == b[0] && a[1] == b[1] && a[2] == b[2] && a[3] == b[3];
  }

  ghost predicate Projecting(creator: Creator, i: nat)
    requires i < |creator.videos|
  {
    creator.videos[i].videoId in Ids(creator.manifest) && ValidVideo(creator.videos[i])
  }

  ghost predicate GoodVideos(creator: Creator) {
    forall i :: 0 <= i < |creator.videos| ==> Projecting(creator, i)
  }

  ghost predicate GoodCreator(creator: Creator) {
    |Ids(creator.manifest)| == |creator.videos| && GoodVideos(creator)
  }

  ghost function CreatorRows(creator: Creator): (rows: seq<VideoRow>)
    requires GoodVideos(creator)
    ensures |rows| == |creator.videos|
  {
    seq(|creator.videos|, i requires 0 <= i < |creator.videos|
        && Projecting(creator, i) => ApiRow(creator, creator.videos[i]))
  }

  ghost function AllRows(creators: seq<Creator>): seq<VideoRow>
    requires forall i :: 0 <= i < |creators| ==> GoodVideos(creators[i])
  {
    if creators == [] then [] else AllRows(creators[..|creators| - 1]) + CreatorRows(creators[|creators| - 1])
  }

  ghost predicate NoVideoTwice(rows: seq<VideoRow>) {
    forall i, j :: 0 <= i < j < |rows| ==> rows[i].videoId != rows[j].videoId
  }

  /** Inputs that project: every creator's manifest covers its videos one to one, every video is
      valid, and no video stands under two creators. */
  ghost predicate Projects(creators: seq<Creator>) {
    && (forall i :: 0 <= i < |creators| ==> GoodCreator(creators[i]))
    && NoVideoTwice(AllRows(creators))
  }

  function VideoLe(a: VideoRow, b: VideoRow): bool {
    TextLe(a.videoId, b.videoId)
  }

  function ApiLe(a: VideoRow, b: VideoRow): bool {
    if a.creator == b.creator then VideoLe(a, b) else TextLe(a.creator, b.creator)
  }

  ghost predicate NewIds(videos: seq<Video>, seenIds: set<Text>) {
    && (forall i :: 0 <= i < |videos| ==> videos[i].videoId !in seenIds)
    && (forall i, j :: 0 <= i < j < |videos| ==> videos[i].videoId != videos[j].videoId)
  }

  function VideoIds(videos: seq<Video>): set<Text> {
    if videos == [] then {} else VideoIds(videos[..|videos| - 1]) + {videos[|videos| - 1].videoId}
  }

  lemma {:induction false} InVideoIds(videos: seq<Video>, id: Text)
    ensures id in VideoIds(videos) <==> exists k :: 0 <= k < |videos| && videos[k].videoId == id
  {
    if videos != [] {
      InVideoIds(videos[..|videos| - 1], id);
      assert forall k :: 0 <= k < |videos| - 1 ==> videos[..|videos| - 1][k] == videos[k];
    }
  }

  function RowIds(rows: seq<VideoRow>): set<Text> {
    set row | row in rows :: row.videoId
  }

  lemma NextVideo(videos: seq<Video>, j: nat, seenIds: set<Text>)
    requires j < |videos| && NewIds(videos[..j], seenIds)
    ensures VideoIds(videos[..j + 1]) == VideoIds(videos[..j]) + {videos[j].videoId}
    ensures NewIds(videos[..j + 1], seenIds) <==> videos[j].videoId !in seenIds + VideoIds(videos[..j])
    ensures videos[j].videoId in seenIds + VideoIds(videos[..j]) ==> !NewIds(videos, seenIds)
  {
    var before := videos[..j];
    assert videos[..j + 1][..j] == before;
    InVideoIds(before, videos[j].videoId);
    if videos[j].videoId in VideoIds(before) {
      var k :| 0 <= k < j && before[k].videoId == videos[j].videoId;
      assert videos[..j + 1][k].videoId == videos[..j + 1][j].videoId;
    } else {
      assert forall k :: 0 <= k < j ==> before[k] == videos[k];
    }
  }

  lemma AreCreatorRows(creator: Creator, rows: seq<VideoRow>)
    requires |rows| == |creator.videos|
    requires forall k :: 0 <= k < |rows| ==> Projecting(creator, k) && rows[k] == ApiRow(creator, creator.videos[k])
    ensures GoodVideos(creator) && rows == CreatorRows(creator)
  {
  }

  /** One creator's rows; the ids seen so far grow by its videos. */
  /** The first `j` videos project to these rows and were not seen before. */
  ghost predicate Scanned(creator: Creator, seenIds: set<Text>, j: nat, rows: seq<VideoRow>, seen: set<Text>)
    requires j <= |creator.videos|
  {
    && NewIds(creator.videos[..j], seenIds)
    && seen == seenIds + VideoIds(creator.videos[..j])
    && |rows| == j
    && forall k :: 0 <= k < j ==> Projecting(creator, k) && rows[k] == ApiRow(creator, creator.videos[k])
  }

  /** The first video that does not project, and why. */
  ghost predicate FirstFlaw(creator: Creator, seenIds: set<Text>, j: nat, e: InputError) {
    && j < |creator.videos| && NewIds(creator.videos[..j], seenIds)
    && (forall k :: 0 <= k < j ==> Projecting(creator, k))
    && var id := creator.videos[j].videoId;
       var isNew := id !in seenIds + VideoIds(creator.videos[..j]);
       match e
       case AssignedTwice => !isNew
       case ManifestMismatch => isNew && id !in Ids(creator.manifest)
       case InvalidVideo => isNew && id in Ids(creator.manifest) && !ValidVideo(creator.videos[j])
       case DuplicateApiVideo => false
  }

  ghost predicate CreatorFlaw(creator: Creator, seenIds: set<Text>, e: InputError) {
    if |Ids(creator.manifest)| != |creator.videos| then e == DuplicateApiVideo
    else exists j: nat :: FirstFlaw(creator, seenIds, j, e)
  }

  lemma ScanGoesOn(creator: Creator, seenIds: set<Text>, j: nat, rows: seq<VideoRow>, seen: set<Text>)
    requires j < |creator.videos| && Scanned(creator, seenIds, j, rows, seen)
    requires Projecting(creator, j) && creator.videos[j].videoId !in seen
    ensures Scanned(creator, seenIds, j + 1, rows + [ApiRow(creator, creator.videos[j])],
        seen + {creator.videos[j].videoId})
  {
    NextVideo(creator.videos, j, seenIds);
  }

  lemma ScanStops(creator: Creator, seenIds: set<Text>, j: nat, rows: seq<VideoRow>, seen: set<Text>)
    requires j < |creator.videos| && Scanned(creator, seenIds, j, rows, seen)
    requires !Projecting(creator, j) || creator.videos[j].videoId in seen
    ensures !(GoodCreator(creator) && NewIds(creator.videos, seenIds))
  {
    NextVideo(creator.videos, j, seenIds);
  }

  lemma ScanEnds(creator: Creator, seenIds: set<Text>, rows: seq<VideoRow>, seen: set<Text>)
    requires Scanned(creator, seenIds, |creator.videos|, rows, seen)
    ensures GoodVideos(creator) && NewIds(creator.videos, seenIds)
    ensures rows == CreatorRows(creator) && seen == seenIds + VideoIds(creator.videos)
  {
    assert creator.videos[..|creator.videos|] == creator.videos;
    AreCreatorRows(creator, rows);
  }

  method CreatorProjections(creator: Creator, seenIds: set<Text>)
    returns (r: Result<seq<VideoRow>, InputError>, seen: set<Text>)
    ensures r.Ok? <==> GoodCreator(creator) && NewIds(creator.videos, seenIds)
    ensures r.Ok? ==> r.value == CreatorRows(creator) && seen == seenIds + VideoIds(creator.videos)
    ensures r.Err? ==> CreatorFlaw(creator, seenIds, r.error)
  {
    seen := seenIds;
    if |Ids(creator.manifest)| != |creator.videos| {
      return Err(DuplicateApiVideo), seen;
    }
    var rows: seq<VideoRow> := [];
    for j := 0 to |creator.videos|
      invariant Scanned(creator, seenIds, j, rows, seen)
    {
      var video := creator.videos[j];
      ghost var before := seen;
      if video.videoId in seen {
        ScanStops(creator, seenIds, j, rows, before);
        assert FirstFlaw(creator, seenIds, j, AssignedTwice);
        return Err(AssignedTwice), seen;
      }
      seen := seen + {video.videoId};
      if video.videoId !in Ids(creator.manifest) {
        ScanStops(creator, seenIds, j, rows, before);
        assert FirstFlaw(creator, seenIds, j, ManifestMismatch);
        return Err(ManifestMismatch), seen;
      }
      if !ValidVideo(video) {
        ScanStops(creator, seenIds, j, rows, before);
        assert FirstFlaw(creator, seenIds, j, InvalidVideo);
        return Err(InvalidVideo), seen;
      }
      ScanGoesOn(creator, seenIds, j, rows, before);
      rows := rows + [ApiRow(creator, video)];
    }
    ScanEnds(creator, seenIds, rows, seen);
    return Ok(rows), seen;
  }

  lemma RowsTogether(before: seq<VideoRow>, creator: Creator)
    requires GoodVideos(creator) && NoVideoTwice(before)
    ensures NoVideoTwice(before + CreatorRows(creator)) <==> NewIds(creator.videos, RowIds(before))
    ensures RowIds(before + CreatorRows(creator)) == RowIds(before) + VideoIds(creator.videos)
  {
    var rows := CreatorRows(creator);
    var all := before + rows;
    if NoVideoTwice(all) {
      forall i | 0 <= i < |creator.videos|
        ensures creator.videos[i].videoId !in RowIds(before)
      {
        assert all[|before| + i].videoId == creator.videos[i].videoId;
        assert forall k :: 0 <= k < |before| ==> all[k] == before[k] && all[k].videoId != all[|before| + i].videoId;
      }
      forall i, j | 0 <= i < j < |creator.videos|
        ensures creator.videos[i].videoId != creator.videos[j].videoId
      {
        assert all[|before| + i].videoId == creator.videos[i].videoId;
        assert all[|before| + j].videoId == creator.videos[j].videoId;
      }
    }
    if NewIds(creator.videos, RowIds(before)) {
      forall i, j | 0 <= i < j < |all|
        ensures all[i].videoId != all[j].videoId
      {
        if |before| <= j {
          assert all[j].videoId == creator.videos[j - |before|].videoId;
          if i < |before| {
            assert before[i].videoId in RowIds(before);
          } else {
            assert all[i].videoId == creator.videos[i - |before|].videoId;
          }
        }
      }
    }
    forall id
      ensures id in RowIds(all) <==> id in RowIds(before) + VideoIds(creator.videos)
    {
      RowIdsSplit(before, rows, id);
      CreatorIds(creator, id);
    }
  }

  lemma RowIdsSplit(a: seq<VideoRow>, b: seq<VideoRow>, id: Text)
    ensures id in RowIds(a + b) <==> id in RowIds(a) || id in RowIds(b)
  {
    assert forall row :: row in a + b <==> row in a || row in b;
  }

  lemma CreatorIds(creator: Creator, id: Text)
    requires GoodVideos(creator)
    ensures id in RowIds(CreatorRows(creator)) <==> id in VideoIds(creator.videos)
  {
    var rows := CreatorRows(creator);
    InVideoIds(creator.videos, id);
    if id in RowIds(rows) {
      var k :| 0 <= k < |rows| && rows[k].videoId == id;
      assert creator.videos[k].videoId == id;
    }
    if id in VideoIds(creator.videos) {
      var k :| 0 <= k < |creator.videos| && creator.videos[k].videoId == id;
      assert rows[k] in rows;
    }
  }

  lemma {:induction false} AllRowsHolds(creators: seq<Creator>, i: nat)
    requires forall k :: 0 <= k < |creators| ==> GoodVideos(creators[k])
    requires i < |creators|
    ensures AllRows(creators[..i]) + CreatorRows(creators[i]) <= AllRows(creators)
  {
    var n := |creators| - 1;
    if i < n {
      AllRowsHolds(creators[..n], i);
      assert creators[..n][..i] == creators[..i];
    }
  }

  /** A creator that does not project spoils the whole input. */
  /** The first `i` creators project, to these rows. */
  ghost predicate RowsUpTo(creators: seq<Creator>, i: nat, rows: seq<VideoRow>)
    requires i <= |creators|
  {
    && (forall k :: 0 <= k < i ==> GoodCreator(creators[k]))
    && rows == AllRows(creators[..i])
    && NoVideoTwice(rows)
  }

  lemma SpoiltBy(creators: seq<Creator>, i: nat, rows: seq<VideoRow>)
    requires i < |creators| && RowsUpTo(creators, i, rows)
    requires !(GoodCreator(creators[i]) && NewIds(creators[i].videos, RowIds(rows)))
    ensures !Projects(creators)
  {
    if forall k :: 0 <= k < |creators| ==> GoodCreator(creators[k]) {
      AllRowsHolds(creators, i);
      RowsTogether(AllRows(creators[..i]), creators[i]);
      var own, all := AllRows(creators[..i]) + CreatorRows(creators[i]), AllRows(creators);
      assert forall k :: 0 <= k < |own| ==> own[k] == all[k];
    }
  }

  /** The rows of every creator, or the reason there are none; the ids seen so far watch for a
      video that stands twice. */
  lemma AllRowsMore(creators: seq<Creator>, i: nat)
    requires i < |creators| && forall k :: 0 <= k <= i ==> GoodVideos(creators[k])
    ensures AllRows(creators[..i + 1]) == AllRows(creators[..i]) + CreatorRows(creators[i])
  {
    assert creators[..i + 1][..i] == creators[..i];
  }

  lemma NextCreator(creators: seq<Creator>, i: nat, rows: seq<VideoRow>)
    requires i < |creators| && RowsUpTo(creators, i, rows)
    requires GoodCreator(creators[i]) && NewIds(creators[i].videos, RowIds(rows))
    ensures RowsUpTo(creators, i + 1, rows + CreatorRows(creators[i]))
    ensures RowIds(rows + CreatorRows(creators[i])) == RowIds(rows) + VideoIds(creators[i].videos)
  {
    AllRowsMore(creators, i);
    RowsTogether(rows, creators[i]);
  }

  /** The first creator that does not project beside those before it, and why. */
  ghost predicate FirstSpoilt(creators: seq<Creator>, i: nat, rows: seq<VideoRow>, e: InputError) {
    i < |creators| && RowsUpTo(creators, i, rows) && CreatorFlaw(creators[i], RowIds(rows), e)
  }

  method ApiProjections(creators: seq<Creator>) returns (r: Result<seq<VideoRow>, InputError>)
    ensures r.Ok? <==> Projects(creators)
    ensures r.Ok? ==> r.value == SortBy(ApiLe, AllRows(creators))
    ensures r.Err? ==> exists i: nat, rows :: FirstSpoilt(creators, i, rows, r.error)
  {
    var seenIds: set<Text> := {};
    var rows: seq<VideoRow> := [];
    for i := 0 to |creators|
      invariant RowsUpTo(creators, i, rows) && seenIds == RowIds(rows)
    {
      var projected, seen := CreatorProjections(creators[i], seenIds);
      if projected.Err? {
        SpoiltBy(creators, i, rows);
        assert FirstSpoilt(creators, i, rows, projected.error);
        return projected;
      }
      NextCreator(creators, i, rows);
      rows, seenIds := rows + projected.value, seen;
    }
    assert creators[..|creators|] == creators;
    return Ok(SortBy(ApiLe, rows));
  }

  // ---------------------------------------------------------------- the plan

  /** What an import is planned from, after projection: the rows of both logs, the creators and
      their videos, the gate, and the key that names the import. */
  datatype Source = Source(captures: seq<Row>, decisions: seq<Row>, creators: seq<Text>, videos: seq<VideoRow>,
    gate: GateRow, key: AuditKey)

  datatype Action = Keep | Replace

  datatype Snapshot = Snapshot(creator: Text, action: Action, rows: seq<VideoRow>)

  datatype Plan =
    | Refuse(refusals: seq<Refusal>)
    | NoOp(existing: nat)
    | Append(key: AuditKey, counts: Counts, captures: seq<Row>, decisions: seq<Row>,
        gate: Option<GateRow>, snapshots: seq<Snapshot>)

  ghost predicate SourceOk(s: Source) {
    && Numbered(s.captures)
    && Numbered(s.decisions)
    && (forall i, j :: 0 <= i < j < |s.creators| ==> s.creators[i] != s.creators[j])
    && Sorted(ApiLe, s.videos)
    && NoVideoTwice(s.videos)
    && (forall v :: v in s.videos ==> v.creator in s.creators)
  }

  function CountsOf(s: Source): Counts {
    Counts(|s.captures|, |s.decisions|, |s.videos|)
  }

  function VideosOf(videos: seq<VideoRow>, creator: Text): seq<VideoRow> {
    if videos == [] then []
    else if videos[0].creator == creator then [videos[0]] + VideosOf(videos[1..], creator)
    else VideosOf(videos[1..], creator)
  }

  function FindGate(gates: seq<GateRow>, digest: Text): (g: Option<GateRow>)
    ensures g.Some? ==> g.value in gates && g.value.digest == digest
    ensures g.None? ==> forall x :: x in gates ==> x.digest != digest
  {
    if gates == [] then None
    else if gates[0].digest == digest then Some(gates[0])
    else
      assert forall x :: x in gates ==> x == gates[0] || x in gates[1..];
      FindGate(gates[1..], digest)
  }

  function Matching(imports: seq<ImportRow>, key: AuditKey): seq<ImportRow> {
    if imports == [] then []
    else if imports[0].key == key then [imports[0]] + Matching(imports[1..], key)
    else Matching(imports[1..], key)
  }

  function SnapshotOf(s: Source, stored: seq<VideoRow>, creator: Text): Snapshot {
    var rows := VideosOf(s.videos, creator);
    var prior := SortBy(VideoLe, VideosOf(stored, creator));
    Snapshot(creator, if Same(VideosJson(prior), VideosJson(rows)) then Keep else Replace, rows)
  }

  function Snapshots(s: Source, stored: seq<VideoRow>): (snapshots: seq<Snapshot>)
    ensures |snapshots| == |s.creators|
    ensures forall i :: 0 <= i < |snapshots| ==> snapshots[i] == SnapshotOf(s, stored, s.creators[i])
  {
    seq(|s.creators|, i requires 0 <= i < |s.creators| => SnapshotOf(s, stored, s.creators[i]))
  }

  /** The stored gate is another one under the same digest. */
  predicate GateChanged(s: Source, stored: Stored) {
    var found := FindGate(stored.gates, s.gate.digest);
    found.Some? && !Same(GateJson(found.value), GateJson(s.gate))
  }

  predicate Stray(s: Source, stored: Stored) {
    exists v :: v in stored.videos && v.creator !in s.creators
  }

  /** The import is on record but the store no longer shows what it published. */
  predicate Drifted(s: Source, stored: Stored, existing: ImportRow) {
    || !Same(CountsJson(existing.counts), CountsJson(CountsOf(s)))
    || TailOf(Captures, s.captures, stored.captures).append != []
    || TailOf(Decisions, s.decisions, stored.decisions).append != []
    || FindGate(stored.gates, s.gate.digest).None?
    || SomeReplaced(Snapshots(s, stored.videos))
  }

  predicate SomeReplaced(snapshots: seq<Snapshot>) {
    exists i :: 0 <= i < |snapshots| && snapshots[i].action != Keep
  }

  function ProjectionRefusal(code: Code): Refusal {
    Refusal(Projection, code, None, None)
  }

  function Push<T>(list: seq<T>, when: bool, item: T): seq<T> {
    if when then list + [item] else list
  }

  function Refusals(s: Source, stored: Stored): seq<Refusal> {
    var matching := Matching(stored.imports, s.key);
    var histories := TailOf(Captures, s.captures, stored.captures).refusals
                   + TailOf(Decisions, s.decisions, stored.decisions).refusals;
    var gated := Push(histories, GateChanged(s, stored), Refusal(Gate, HistoryChanged, None, None));
    var single := Push(gated, |matching| > 1, ProjectionRefusal(StoredHistoryInvalid));
    var known := Push(single, Stray(s, stored), ProjectionRefusal(StoredHistoryInvalid));
    Push(known, matching != [] && Drifted(s, stored, matching[0]), ProjectionRefusal(ImportProjectionDrift))
  }

  function PlanOf(s: Source, stored: Stored): Plan {
    var matching := Matching(stored.imports, s.key);
    var found := FindGate(stored.gates, s.gate.digest);
    if Refusals(s, stored) != [] then Refuse(Refusals(s, stored))
    else if matching != [] then NoOp(matching[0].id)
    else Append(s.key, CountsOf(s),
           TailOf(Captures, s.captures, stored.captures).append,
           TailOf(Decisions, s.decisions, stored.decisions).append,
           if found.Some? then None else Some(s.gate),
           Snapshots(s, stored.videos))
  }

  /** The planner as it runs: refusals pile up, and only then is an outcome chosen. */
  method PlanImport(s: Source, stored: Stored) returns (plan: Plan)
    ensures plan == PlanOf(s, stored)
  {
    var captureAppend, refusals := HistoryTail(Captures, s.captures, stored.captures);
    var decisionAppend, decisionRefusals := HistoryTail(Decisions, s.decisions, stored.decisions);
    refusals := refusals + decisionRefusals;
    var found := FindGate(stored.gates, s.gate.digest);
    if found.Some? && !Same(GateJson(found.value), GateJson(s.gate)) {
      refusals := refusals + [Refusal(Gate, HistoryChanged, None, None)];
    }
    var matching := Matching(stored.imports, s.key);
    if |matching| > 1 {
      refusals := refusals + [ProjectionRefusal(StoredHistoryInvalid)];
    }
    if exists v :: v in stored.videos && v.creator !in s.creators {
      refusals := refusals + [ProjectionRefusal(StoredHistoryInvalid)];
    }
    var snapshots := Snapshots(s, stored.videos);
    if matching != [] {
      if
        || !Same(CountsJson(matching[0].counts), CountsJson(CountsOf(s)))
        || captureAppend != []
        || decisionAppend != []
        || found.None?
        || SomeReplaced(snapshots)
      {
        refusals := refusals + [ProjectionRefusal(ImportProjectionDrift)];
      }
    }
    if refusals != [] {
      return Refuse(refusals);
    }
    if matching != [] {
      return NoOp(matching[0].id);
    }
    return Append(s.key, CountsOf(s), captureAppend, decisionAppend,
        if found.Some? then None else Some(s.gate), snapshots);
  }

  /** Projected inputs are fit to plan from. */
  method Load(events: seq<Event>, file: seq<Decided>, creators: seq<Creator>, gate: GateRow, key: AuditKey)
    returns (r: Result<Source, InputError>)
    requires OncePerCreator(file)
    requires forall i, j :: 0 <= i < j < |creators| ==> creators[i].key != creators[j].key
    ensures r.Ok? <==> Projects(creators)
    ensures r.Ok? ==> SourceOk(r.value) && r.value.gate == gate && r.value.key == key
    ensures r.Ok? ==> r.value.captures == Projected(events) && r.value.decisions == DecisionProjections(file)
    ensures r.Ok? ==> multiset(r.value.videos) == multiset(AllRows(creators))
  {
    var captures := CaptureProjections(events);
    var videos := ApiProjections(creators);
    if videos.Err? {
      return Err(videos.error);
    }
    var keys := seq(|creators|, i requires 0 <= i < |creators| => creators[i].key);
    DecisionsAreNumbered(file);
    VideosSettle(creators, keys);
    return Ok(Source(captures, DecisionProjections(file), keys, videos.value, gate, key));
  }

  lemma ApiOrder()
    ensures TotalPreorder(ApiLe)
    ensures TotalPreorder(VideoLe)
  {
    TextOrder();
  }

  lemma {:induction false} RowsHaveOwners(creators: seq<Creator>, keys: seq<Text>)
    requires forall i :: 0 <= i < |creators| ==> GoodVideos(creators[i])
    requires forall i :: 0 <= i < |creators| ==> creators[i].key in keys
    ensures forall v :: v in AllRows(creators) ==> v.creator in keys
  {
    if creators != [] {
      var n := |creators| - 1;
      RowsHaveOwners(creators[..n], keys);
      assert forall v :: v in CreatorRows(creators[n]) ==> v.creator == creators[n].key;
      assert forall v :: v in AllRows(creators) ==> v in AllRows(creators[..n]) || v in CreatorRows(creators[n]);
    }
  }

  function VideoIdOf(v: VideoRow): Text {
    v.videoId
  }

  lemma VideosSettle(creators: seq<Creator>, keys: seq<Text>)
    requires Projects(creators)
    requires |keys| == |creators| && forall i :: 0 <= i < |creators| ==> keys[i] == creators[i].key
    ensures multiset(SortBy(ApiLe, AllRows(creators))) == multiset(AllRows(creators))
    ensures Sorted(ApiLe, SortBy(ApiLe, AllRows(creators))) && NoVideoTwice(SortBy(ApiLe, AllRows(creators)))
    ensures forall v :: v in SortBy(ApiLe, AllRows(creators)) ==> v.creator in keys
  {
    var rows := AllRows(creators);
    ApiOrder();
    SortSorts(ApiLe, rows);
    SortKeeps(ApiLe, rows);
    SameElements(rows, SortBy(ApiLe, rows));
    KeyedAnyOrder(VideoIdOf, rows, SortBy(ApiLe, rows));
    assert forall i :: 0 <= i < |creators| ==> GoodCreator(creators[i]);
    forall i | 0 <= i < |creators|
      ensures creators[i].key in keys
    {
      assert keys[i] == creators[i].key;
    }
    RowsHaveOwners(creators, keys);
  }

  /** Projected videos are listed by creator, and each creator's by id. */
  lemma VideosInOrder(creators: seq<Creator>, i: nat, j: nat)
    requires Projects(creators) && i < j < |AllRows(creators)|
    ensures |SortBy(ApiLe, AllRows(creators))| == |AllRows(creators)|
    ensures var rows := SortBy(ApiLe, AllRows(creators));
      && TextLe(rows[i].creator, rows[j].creator)
      && (rows[i].creator == rows[j].creator ==>
          rows[i].videoId != rows[j].videoId && TextLe(rows[i].videoId, rows[j].videoId))
  {
    var rows := AllRows(creators);
    ApiOrder();
    SortSorts(ApiLe, rows);
    SortKeeps(ApiLe, rows);
    KeyedAnyOrder(VideoIdOf, rows, SortBy(ApiLe, rows));
    TextOrder();
    assert ApiLe(SortBy(ApiLe, rows)[i], SortBy(ApiLe, rows)[j]);
    assert VideoIdOf(SortBy(ApiLe, rows)[i]) != VideoIdOf(SortBy(ApiLe, rows)[j]);
  }
}
