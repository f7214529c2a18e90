/** Publishing a planned import, and planning again. */
module CorpusStore {
  // What the tables hold afterwards, why planning the same inputs again finds nothing to do, and
  // what every sequence of imports keeps.

  import opened Wrappers
  import opened Sorting
  import opened CanonicalJson
  import opened ImportHistory
  import opened ImportPlan

  // ---------------------------------------------------------------- what publishing does

  function Without(videos: seq<VideoRow>, creator: Text): seq<VideoRow> {
    if videos == [] then []
    else if videos[0].creator == creator then Without(videos[1..], creator)
    else [videos[0]] + Without(videos[1..], creator)
  }

  function Replaced(videos: seq<VideoRow>, snapshots: seq<Snapshot>): seq<VideoRow> {
    if snapshots == [] then videos
    else
      var before := Replaced(videos, snapshots[..|snapshots| - 1]);
      var last := snapshots[|snapshots| - 1];
      if last.action == Keep then before else Without(before, last.creator) + last.rows
  }

  function Published(stored: Stored, plan: Plan, id: nat): Stored
    requires plan.Append?
  {
    Stored(stored.captures + plan.captures,
           stored.decisions + plan.decisions,
           stored.gates + (if plan.gate.Some? then [plan.gate.value] else []),
           Replaced(stored.videos, plan.snapshots),
           stored.imports + [ImportRow(id, plan.key, plan.counts)])
  }

  /** What one import makes of the store: only an append changes it. */
  function AfterImport(stored: Stored, s: Source, id: nat): Stored {
    var plan := PlanOf(s, stored);
    if plan.Append? then Published(stored, plan, id) else stored
  }

  datatype Outcome = Refused(refusals: seq<Refusal>) | AlreadyImported(id: nat) 
    | Imported(id: nat, captures: nat, decisions: nat, replaced: nat)

  function CountReplaced(snapshots: seq<Snapshot>): nat {
    if snapshots == [] then 0
    else CountReplaced(snapshots[..|snapshots| - 1]) + if snapshots[|snapshots| - 1].action == Replace then 1 else 0
  }

  class Tables {
    var captures: seq<Row>
    var decisions: seq<Row>
    var gates: seq<GateRow>
    var videos: seq<VideoRow>
    var imports: seq<ImportRow>
    var nextId: nat

    function Contents(): Stored
      reads this
    {
      Stored(captures, decisions, gates, videos, imports)
    }

    constructor ()
      ensures Contents() == Stored([], [], [], [], [])
    {
      captures, decisions, gates, videos, imports, nextId := [], [], [], [], [], 1;
    }

    method ReplaceSnapshots(snapshots: seq<Snapshot>)
      modifies this`videos
      ensures videos == Replaced(old(videos), snapshots)
    {
      for i := 0 to |snapshots|
        invariant videos == Replaced(old(videos), snapshots[..i])
      {
        assert snapshots[..i + 1][..i] == snapshots[..i];
        if snapshots[i].action == Keep {
          continue;
        }
        videos := Without(videos, snapshots[i].creator);
        ghost var emptied := videos;
        for j := 0 to |snapshots[i].rows|
          invariant videos == emptied + snapshots[i].rows[..j]
        {
          videos := videos + [snapshots[i].rows[j]];
        }
        assert snapshots[i].rows[..|snapshots[i].rows|] == snapshots[i].rows;
      }
      assert snapshots[..|snapshots|] == snapshots;
    }

    method PublishAppend(plan: Plan) returns (id: nat)
      requires plan.Append?
      modifies this
      ensures id == old(nextId) && nextId == id + 1
      ensures Contents() == Published(old(Contents()), plan, id)
    {
      id := nextId;
      nextId := nextId + 1;
      imports := imports + [ImportRow(id, plan.key, plan.counts)];
      if plan.gate.Some? {
        gates := gates + [plan.gate.value];
      }
      for i := 0 to |plan.captures|
        invariant captures == old(captures) + plan.captures[..i]
        invariant decisions == old(decisions) && videos == old(videos) && nextId == id + 1
        invariant gates == old(gates) + (if plan.gate.Some? then [plan.gate.value] else [])
        invariant imports == old(imports) + [ImportRow(id, plan.key, plan.counts)]
      {
        captures := captures + [plan.captures[i]];
      }
      for i := 0 to |plan.decisions|
        invariant decisions == old(decisions) + plan.decisions[..i]
        invariant captures == old(captures) + plan.captures && videos == old(videos) && nextId == id + 1
        invariant gates == old(gates) + (if plan.gate.Some? then [plan.gate.value] else [])
        invariant imports == old(imports) + [ImportRow(id, plan.key, plan.counts)]
      {
        decisions := decisions + [plan.decisions[i]];
      }
      ReplaceSnapshots(plan.snapshots);
    }

    method PublishCorpusImport(s: Source) returns (outcome: Outcome)
      modifies this
      ensures Contents() == AfterImport(old(Contents()), s, old(nextId))
      ensures match PlanOf(s, old(Contents()))
              case Refuse(refusals) => outcome == Refused(refusals)
              case NoOp(id) => outcome == AlreadyImported(id)
              case Append(_, _, c, d, _, snapshots) =>
                outcome == Imported(old(nextId), |c|, |d|, CountReplaced(snapshots))
    {
      var plan := PlanImport(s, Contents());
      match plan
      case Refuse(refusals) =>
        outcome := Refused(refusals);
      case NoOp(id) =>
        outcome := AlreadyImported(id);
      case Append(_, _, c, d, _, snapshots) =>
        var id := PublishAppend(plan);
        outcome := Imported(id, |c|, |d|, CountReplaced(snapshots));
    }
  }

  // ---------------------------------------------------------------- the tables' keys

  ghost predicate HistoriesOk(rows: seq<Row>) {
    forall c :: Contiguous(History(rows, c))
  }

  ghost predicate GatesKeyed(gates: seq<GateRow>) {
    forall i, j :: 0 <= i < j < |gates| ==> gates[i].digest != gates[j].digest
  }

  ghost predicate VideosKeyed(videos: seq<VideoRow>) {
    forall c :: NoVideoTwice(VideosOf(videos, c))
  }

  ghost predicate ImportsKeyed(imports: seq<ImportRow>) {
    forall i, j :: 0 <= i < j < |imports| ==> imports[i].key != imports[j].key
  }

  ghost predicate StoreOk(stored: Stored) {
    && HistoriesOk(stored.captures)
    && HistoriesOk(stored.decisions)
    && GatesKeyed(stored.gates)
    && VideosKeyed(stored.videos)
    && ImportsKeyed(stored.imports)
  }

  function PositionOf(row: Row): int {
    row.position
  }

  /** Contiguous histories use no (creator, position) pair twice: the tables' primary key. */
  lemma HistoryKey(rows: seq<Row>, i: nat, j: nat)
    requires HistoriesOk(rows) && i < j < |rows|
    ensures rows[i].creator != rows[j].creator || rows[i].position != rows[j].position
  {
    var c := rows[j].creator;
    var h := History(rows, c);
    assert Contiguous(h);
    HistoryRows(rows, c);
    RowsOfIn(rows, c);
    SameElements(h, RowsOf(rows, c));
    if rows[i].creator == c && rows[i].position == rows[j].position {
      assert rows[i] in h && rows[j] in h;
      TwiceInside(rows, i, j);
      RowsOfElements(rows, c, rows[j]);
      KeyedOnce(PositionOf, h, rows[j]);
    }
  }

  // ---------------------------------------------------------------- videos by creator

  lemma {:induction false} VideosOfConcat(a: seq<VideoRow>, b: seq<VideoRow>, creator: Text)
    ensures VideosOf(a + b, creator) == VideosOf(a, creator) + VideosOf(b, creator)
  {
    if a == [] {
      assert a + b == b;
    } else {
      VideosOfConcat(a[1..], b, creator);
      assert (a + b)[1..] == a[1..] + b;
    }
  }

  lemma {:induction false} VideosOfIn(videos: seq<VideoRow>, creator: Text)
    ensures forall v :: v in VideosOf(videos, creator) <==> v in videos && v.creator == creator
  {
    if videos != [] {
      VideosOfIn(videos[1..], creator);
      assert videos == [videos[0]] + videos[1..];
    }
  }

  lemma {:induction false} VideosOfOne(videos: seq<VideoRow>, owner: Text, creator: Text)
    requires forall v :: v in videos ==> v.creator == owner
    ensures VideosOf(videos, creator) == if creator == owner then videos else []
  {
    if videos != [] {
      VideosOfOne(videos[1..], owner, creator);
    }
  }

  lemma {:induction false} VideosOfWithout(videos: seq<VideoRow>, gone: Text, creator: Text)
    ensures VideosOf(Without(videos, gone), creator) == if creator == gone then [] else VideosOf(videos, creator)
  {
    if videos != [] {
      VideosOfWithout(videos[1..], gone, creator);
    }
  }

  lemma {:induction false} VideosOfElements(videos: seq<VideoRow>, creator: Text, v: VideoRow)
    ensures multiset(VideosOf(videos, creator))[v] == if v.creator == creator then multiset(videos)[v] else 0
  {
    if videos != [] {
      VideosOfElements(videos[1..], creator, v);
      assert videos == [videos[0]] + videos[1..];
    }
  }

  lemma VideosOfRearranged(a: seq<VideoRow>, b: seq<VideoRow>, creator: Text)
    requires multiset(a) == multiset(b)
    ensures multiset(VideosOf(a, creator)) == multiset(VideosOf(b, creator))
  {
    forall v
      ensures multiset(VideosOf(a, creator))[v] == multiset(VideosOf(b, creator))[v]
    {
      VideosOfElements(a, creator, v);
      VideosOfElements(b, creator, v);
    }
  }

  ghost predicate OwnSnapshots(snapshots: seq<Snapshot>) {
    && (forall i, j :: 0 <= i < j < |snapshots| ==> snapshots[i].creator != snapshots[j].creator)
    && (forall i :: 0 <= i < |snapshots| ==> OwnRows(snapshots[i]))
  }

  ghost predicate OwnRows(snapshot: Snapshot) {
    forall v :: v in snapshot.rows ==> v.creator == snapshot.creator
  }

  /** What one creator's rows are after one snapshot has been dealt with. */
  lemma SnapshotReplaces(videos: seq<VideoRow>, last: Snapshot, c: Text)
    requires OwnRows(last)
    ensures VideosOf(Without(videos, last.creator) + last.rows, c)
         == if c == last.creator then last.rows else VideosOf(videos, c)
  {
    VideosOfConcat(Without(videos, last.creator), last.rows, c);
    VideosOfWithout(videos, last.creator, c);
    VideosOfOne(last.rows, last.creator, c);
  }

  /** A replaced creator shows the snapshot's rows; every other creator keeps its own. */
  lemma {:induction false} ReplacedOf(videos: seq<VideoRow>, snapshots: seq<Snapshot>, c: Text)
    requires OwnSnapshots(snapshots)
    ensures (forall k :: 0 <= k < |snapshots| && snapshots[k].creator == c ==> snapshots[k].action == Keep)
      ==> VideosOf(Replaced(videos, snapshots), c) == VideosOf(videos, c)
    ensures forall k :: 0 <= k < |snapshots| && snapshots[k].creator == c && snapshots[k].action == Replace ==>
      VideosOf(Replaced(videos, snapshots), c) == snapshots[k].rows
  {
    if snapshots != [] {
      var n := |snapshots| - 1;
      ReplacedOf(videos, snapshots[..n], c);
      assert OwnRows(snapshots[n]);
      SnapshotReplaces(Replaced(videos, snapshots[..n]), snapshots[n], c);
      assert forall k :: 0 <= k < n ==> snapshots[..n][k] == snapshots[k];
    }
  }

  // ---------------------------------------------------------------- when there is nothing to do

  /** The store shows every creator's incoming history in full, the gate, every creator's videos
      and no others, and exactly one import under the source's key, with its counts. */
  ghost predicate InPlace(s: Source, stored: Stored, id: nat) {
    && (forall c :: History(stored.captures, c) == RowsOf(s.captures, c))
    && (forall c :: History(stored.decisions, c) == RowsOf(s.decisions, c))
    && GateInPlace(s, stored.gates)
    && VideosInPlace(s, stored.videos)
    && ImportInPlace(s, stored.imports, id)
  }

  ghost predicate GateInPlace(s: Source, gates: seq<GateRow>) {
    var found := FindGate(gates, s.gate.digest);
    found.Some? && Same(GateJson(found.value), GateJson(s.gate))
  }

  ghost predicate VideosInPlace(s: Source, videos: seq<VideoRow>) {
    && (forall v :: v in videos ==> v.creator in s.creators)
    && (forall i :: 0 <= i < |s.creators| ==> SnapshotOf(s, videos, s.creators[i]).action == Keep)
  }

  ghost predicate ImportInPlace(s: Source, imports: seq<ImportRow>, id: nat) {
    var matching := Matching(imports, s.key);
    |matching| == 1 && matching[0].id == id && Same(CountsJson(matching[0].counts), CountsJson(CountsOf(s)))
  }

  lemma NothingRefusedMeans(s: Source, stored: Stored)
    ensures Refusals(s, stored) == [] <==>
      && TailOf(Captures, s.captures, stored.captures).refusals == []
      && TailOf(Decisions, s.decisions, stored.decisions).refusals == []
      && !GateChanged(s, stored)
      && |Matching(stored.imports, s.key)| <= 1
      && !Stray(s, stored)
      && (Matching(stored.imports, s.key) != [] ==> !Drifted(s, stored, Matching(stored.imports, s.key)[0]))
  {
  }

  /** A history is in place exactly when nothing is refused and nothing is left to append. */
  lemma HistoriesInPlace(stream: Stream, incoming: seq<Row>, stored: seq<Row>)
    requires Numbered(incoming)
    ensures TailOf(stream, incoming, stored) == Tail([], [])
       <==> forall c :: History(stored, c) == RowsOf(incoming, c)
  {
    if TailOf(stream, incoming, stored) == Tail([], []) {
      forall c
        ensures History(stored, c) == RowsOf(incoming, c)
      {
        StoredPlusAppended(stream, incoming, stored, c);
      }
    }
    if forall c :: History(stored, c) == RowsOf(incoming, c) {
      NothingLeft(stream, incoming, stored);
    }
  }

  /** The planner reports a no-op exactly when everything it would publish is in place. */
  lemma NoOpExactlyInPlace(s: Source, stored: Stored, id: nat)
    requires SourceOk(s)
    ensures PlanOf(s, stored) == NoOp(id) <==> InPlace(s, stored, id)
  {
    HistoriesInPlace(Captures, s.captures, stored.captures);
    HistoriesInPlace(Decisions, s.decisions, stored.decisions);
    NothingRefusedMeans(s, stored);
    SnapshotsKept(s, stored.videos);
  }

  lemma SnapshotsKept(s: Source, videos: seq<VideoRow>)
    ensures SomeReplaced(Snapshots(s, videos))
       <==> exists i :: 0 <= i < |s.creators| && SnapshotOf(s, videos, s.creators[i]).action != Keep
  {
  }

  // ---------------------------------------------------------------- planning again

  /** What a later query of the tables may return: the same rows in any order. */
  ghost predicate Rearranged(view: Stored, stored: Stored) {
    && multiset(view.captures) == multiset(stored.captures)
    && multiset(view.decisions) == multiset(stored.decisions)
    && multiset(view.gates) == multiset(stored.gates)
    && multiset(view.videos) == multiset(stored.videos)
    && multiset(view.imports) == multiset(stored.imports)
  }

  lemma GateSettles(s: Source, stored: seq<GateRow>, published: seq<GateRow>, gates: seq<GateRow>)
    requires GatesKeyed(stored)
    requires var before := FindGate(stored, s.gate.digest);
      if before.Some? then published == stored && Same(GateJson(before.value), GateJson(s.gate))
      else published == stored + [s.gate]
    requires multiset(gates) == multiset(published)
    ensures GateInPlace(s, gates)
  {
    SameElements(gates, published);
    var before := FindGate(stored, s.gate.digest);
    var found := FindGate(gates, s.gate.digest);
    if before.Some? {
      assert before.value in gates;
      assert found.value in stored;
    } else {
      assert s.gate in published;
      assert found.value == s.gate;
    }
  }

  lemma {:induction false} MatchingElements(imports: seq<ImportRow>, key: AuditKey, x: ImportRow)
    ensures multiset(Matching(imports, key))[x] == if x.key == key then multiset(imports)[x] else 0
  {
    if imports != [] {
      MatchingElements(imports[1..], key, x);
      assert imports == [imports[0]] + imports[1..];
    }
  }

  lemma {:induction false} NoneMatching(imports: seq<ImportRow>, key: AuditKey)
    ensures Matching(imports, key) == [] <==> forall i :: 0 <= i < |imports| ==> imports[i].key != key
  {
    if imports != [] {
      NoneMatching(imports[1..], key);
    }
  }

  lemma ImportSettles(s: Source, stored: seq<ImportRow>, imports: seq<ImportRow>, row: ImportRow)
    requires Matching(stored, s.key) == [] && row.key == s.key && row.counts == CountsOf(s)
    requires multiset(imports) == multiset(stored + [row])
    ensures ImportInPlace(s, imports, row.id)
  {
    var matching := Matching(imports, s.key);
    forall x
      ensures multiset(matching)[x] == multiset([row])[x]
    {
      MatchingElements(imports, s.key, x);
      MatchingElements(stored, s.key, x);
    }
    assert multiset(matching) == multiset([row]);
    SameElements(matching, [row]);
    assert matching[0] in matching;
  }

  lemma SnapshotsOwned(s: Source, stored: seq<VideoRow>)
    requires SourceOk(s)
    ensures OwnSnapshots(Snapshots(s, stored))
  {
    forall i | 0 <= i < |s.creators|
      ensures OwnRows(Snapshots(s, stored)[i])
    {
      VideosOfIn(s.videos, s.creators[i]);
    }
  }

  lemma {:induction false} OwnVideosSorted(videos: seq<VideoRow>, creator: Text)
    requires Sorted(ApiLe, videos) && NoVideoTwice(videos)
    ensures Sorted(VideoLe, VideosOf(videos, creator)) && NoVideoTwice(VideosOf(videos, creator))
  {
    if videos != [] {
      OwnVideosSorted(videos[1..], creator);
      VideosOfIn(videos[1..], creator);
      var rest := VideosOf(videos[1..], creator);
      forall i | 0 <= i < |rest| && videos[0].creator == creator
        ensures VideoLe(videos[0], rest[i]) && videos[0].videoId != rest[i].videoId
      {
        assert rest[i] in videos[1..] && rest[i].creator == creator;
        var k :| 0 <= k < |videos[1..]| && videos[1..][k] == rest[i];
        assert videos[k + 1] == rest[i];
      }
    }
  }

  lemma VideosDistinguished(rows: seq<VideoRow>)
    requires NoVideoTwice(rows)
    ensures Distinguished(VideoLe, rows)
  {
    TextOrder();
  }

  /** Rows that come back in any order sort into the same snapshot. */
  lemma PriorForgetsOrder(a: seq<VideoRow>, b: seq<VideoRow>, c: Text)
    requires multiset(a) == multiset(b) && NoVideoTwice(VideosOf(a, c))
    ensures SortBy(VideoLe, VideosOf(b, c)) == SortBy(VideoLe, VideosOf(a, c))
  {
    VideosOfRearranged(a, b, c);
    VideosDistinguished(VideosOf(a, c));
    ApiOrder();
    SortForgetsOrder(VideoLe, VideosOf(a, c), VideosOf(b, c));
  }

  lemma VideoSettles(s: Source, stored: seq<VideoRow>, view: seq<VideoRow>, i: nat)
    requires SourceOk(s) && VideosKeyed(stored) && i < |s.creators|
    requires multiset(view) == multiset(Replaced(stored, Snapshots(s, stored)))
    ensures SnapshotOf(s, view, s.creators[i]).action == Keep
  {
    var c := s.creators[i];
    var snapshots := Snapshots(s, stored);
    var published := Replaced(stored, snapshots);
    SnapshotsOwned(s, stored);
    ReplacedOf(stored, snapshots, c);
    OwnVideosSorted(s.videos, c);
    assert snapshots[i].creator == c;
    if snapshots[i].action == Keep {
      assert forall k :: 0 <= k < |snapshots| && snapshots[k].creator == c ==> k == i;
      assert VideosOf(published, c) == VideosOf(stored, c);
      assert NoVideoTwice(VideosOf(stored, c));
      PriorForgetsOrder(published, view, c);
    } else {
      assert VideosOf(published, c) == VideosOf(s.videos, c);
      PriorForgetsOrder(published, view, c);
      SortOfSorted(VideoLe, VideosOf(s.videos, c));
    }
  }

  lemma OutsiderUntouched(s: Source, stored: seq<VideoRow>, c: Text)
    requires SourceOk(s) && c !in s.creators
    ensures VideosOf(Replaced(stored, Snapshots(s, stored)), c) == VideosOf(stored, c)
  {
    SnapshotsOwned(s, stored);
    ReplacedOf(stored, Snapshots(s, stored), c);
  }

  /** Videos in the published store come from the store or from the source. */
  lemma PublishedOwners(s: Source, stored: seq<VideoRow>, v: VideoRow)
    requires SourceOk(s) && forall x :: x in stored ==> x.creator in s.creators
    requires v in Replaced(stored, Snapshots(s, stored))
    ensures v.creator in s.creators
  {
    VideosOfIn(Replaced(stored, Snapshots(s, stored)), v.creator);
    VideosOfIn(stored, v.creator);
    if v.creator !in s.creators {
      OutsiderUntouched(s, stored, v.creator);
    }
  }

  lemma VideosSettled(s: Source, stored: Stored, view: seq<VideoRow>)
    requires SourceOk(s) && VideosKeyed(stored.videos) && !Stray(s, stored)
    requires multiset(view) == multiset(Replaced(stored.videos, Snapshots(s, stored.videos)))
    ensures VideosInPlace(s, view)
  {
    SameElements(view, Replaced(stored.videos, Snapshots(s, stored.videos)));
    forall v | v in view
      ensures v.creator in s.creators
    {
      PublishedOwners(s, stored.videos, v);
    }
    forall i | 0 <= i < |s.creators|
      ensures SnapshotOf(s, view, s.creators[i]).action == Keep
    {
      VideoSettles(s, stored.videos, view, i);
    }
  }

  /** An append plan, and the tables it leaves. */
  lemma AppendLeaves(s: Source, stored: Stored, id: nat)
    requires PlanOf(s, stored).Append?
    ensures var captures := TailOf(Captures, s.captures, stored.captures);
      captures.refusals == [] && AfterImport(stored, s, id).captures == stored.captures + captures.append
    ensures var decisions := TailOf(Decisions, s.decisions, stored.decisions);
      decisions.refusals == [] && AfterImport(stored, s, id).decisions == stored.decisions + decisions.append
    ensures var before := FindGate(stored.gates, s.gate.digest);
      if before.Some? then AfterImport(stored, s, id).gates == stored.gates
          && Same(GateJson(before.value), GateJson(s.gate))
      else AfterImport(stored, s, id).gates == stored.gates + [s.gate]
    ensures !Stray(s, stored) && AfterImport(stored, s, id).videos
        == Replaced(stored.videos, Snapshots(s, stored.videos))
    ensures Matching(stored.imports, s.key) == []
    ensures AfterImport(stored, s, id).imports == stored.imports + [ImportRow(id, s.key, CountsOf(s))]
  {
    NothingRefusedMeans(s, stored);
  }

  lemma HistoriesSettle(stream: Stream, incoming: seq<Row>, stored: seq<Row>, view: seq<Row>)
    requires Numbered(incoming)
    requires TailOf(stream, incoming, stored).refusals == []
    requires multiset(view) == multiset(stored + TailOf(stream, incoming, stored).append)
    ensures forall c :: History(view, c) == RowsOf(incoming, c)
  {
    forall c
      ensures History(view, c) == RowsOf(incoming, c)
    {
      HistoryAfterAppend(stream, incoming, stored, view, c);
    }
  }

  /** Publishing an append plan and planning the same source again is a no-op that names the
      new import, in whatever order the tables return their rows. */
  lemma ReplanIsNoOp(s: Source, stored: Stored, id: nat, view: Stored)
    requires SourceOk(s) && GatesKeyed(stored.gates) && VideosKeyed(stored.videos)
    requires PlanOf(s, stored).Append?
    requires Rearranged(view, AfterImport(stored, s, id))
    ensures PlanOf(s, view) == NoOp(id)
  {
    AppendLeaves(s, stored, id);
    assert InPlace(s, view, id) by {
      HistoriesSettle(Captures, s.captures, stored.captures, view.captures);
      HistoriesSettle(Decisions, s.decisions, stored.decisions, view.decisions);
      GateSettles(s, stored.gates, AfterImport(stored, s, id).gates, view.gates);
      ImportSettles(s, stored.imports, view.imports, ImportRow(id, s.key, CountsOf(s)));
      VideosSettled(s, stored, view.videos);
    }
    NoOpExactlyInPlace(s, view, id);
  }

  // ---------------------------------------------------------------- every sequence of imports

  lemma HistoryPublished(stream: Stream, incoming: seq<Row>, stored: seq<Row>)
    requires Numbered(incoming) && TailOf(stream, incoming, stored).refusals == []
    ensures HistoriesOk(stored + TailOf(stream, incoming, stored).append)
    ensures forall c :: History(stored, c) <= History(stored + TailOf(stream, incoming, stored).append, c)
  {
    var after := stored + TailOf(stream, incoming, stored).append;
    forall c
      ensures Contiguous(History(after, c)) && History(stored, c) <= History(after, c)
    {
      HistoryAfterAppend(stream, incoming, stored, after, c);
      StoredPlusAppended(stream, incoming, stored, c);
      NumberedHistory(incoming, c);
    }
  }

  lemma VideosStayKeyed(s: Source, stored: seq<VideoRow>)
    requires SourceOk(s) && VideosKeyed(stored)
    ensures VideosKeyed(Replaced(stored, Snapshots(s, stored)))
  {
    var snapshots := Snapshots(s, stored);
    SnapshotsOwned(s, stored);
    forall c
      ensures NoVideoTwice(VideosOf(Replaced(stored, snapshots), c))
    {
      ReplacedOf(stored, snapshots, c);
      OwnVideosSorted(s.videos, c);
      assert NoVideoTwice(VideosOf(stored, c));
    }
  }

  lemma GateAdded(gates: seq<GateRow>, gate: GateRow)
    requires GatesKeyed(gates) && FindGate(gates, gate.digest).None?
    ensures GatesKeyed(gates + [gate])
  {
  }

  lemma ImportAdded(imports: seq<ImportRow>, row: ImportRow)
    requires ImportsKeyed(imports) && Matching(imports, row.key) == []
    ensures ImportsKeyed(imports + [row])
  {
    NoneMatching(imports, row.key);
  }

  /** An import keeps every table's keys unique and every history in one piece, and only adds to
      histories, gates and imports. */
  lemma ImportKeeps(s: Source, stored: Stored, id: nat)
    requires SourceOk(s) && StoreOk(stored)
    ensures StoreOk(AfterImport(stored, s, id))
    ensures Grows(stored, AfterImport(stored, s, id))
  {
    if PlanOf(s, stored).Append? {
      NothingRefusedMeans(s, stored);
      HistoryPublished(Captures, s.captures, stored.captures);
      HistoryPublished(Decisions, s.decisions, stored.decisions);
      VideosStayKeyed(s, stored.videos);
      ImportAdded(stored.imports, ImportRow(id, s.key, CountsOf(s)));
      if FindGate(stored.gates, s.gate.digest).None? {
        GateAdded(stored.gates, s.gate);
      }
    }
  }

  ghost predicate Grows(before: Stored, after: Stored) {
    && (forall c :: History(before.captures, c) <= History(after.captures, c))
    && (forall c :: History(before.decisions, c) <= History(after.decisions, c))
    && before.gates <= after.gates
    && before.imports <= after.imports
  }

  datatype Import = Import(source: Source, id: nat)

  ghost function Run(imports: seq<Import>): Stored {
    if imports == [] then Stored([], [], [], [], [])
    else
      var last := imports[|imports| - 1];
      AfterImport(Run(imports[..|imports| - 1]), last.source, last.id)
  }

  lemma {:induction false} RunKeeps(imports: seq<Import>)
    requires forall i :: 0 <= i < |imports| ==> SourceOk(imports[i].source)
    ensures StoreOk(Run(imports))
  {
    if imports != [] {
      var n := |imports| - 1;
      RunKeeps(imports[..n]);
      ImportKeeps(imports[n].source, Run(imports[..n]), imports[n].id);
    }
  }

  /** A creator's histories, the gates and the imports have grown at their ends. */
  ghost predicate Grown(before: Stored, after: Stored, c: Text) {
    && History(before.captures, c) <= History(after.captures, c)
    && History(before.decisions, c) <= History(after.decisions, c)
    && before.gates <= after.gates
    && before.imports <= after.imports
  }

  lemma GrownFurther(s: Stored, t: Stored, u: Stored, c: Text)
    requires Grown(s, t, c) && Grown(t, u, c)
    ensures Grown(s, u, c)
  {
    Prefixes(History(s.captures, c), History(t.captures, c), History(u.captures, c));
    Prefixes(History(s.decisions, c), History(t.decisions, c), History(u.decisions, c));
    Prefixes(s.gates, t.gates, u.gates);
    Prefixes(s.imports, t.imports, u.imports);
  }

  lemma Prefixes<T>(a: seq<T>, b: seq<T>, c: seq<T>)
    requires a <= b <= c
    ensures a <= c
  {
  }

  /** Published histories only ever grow, and so do gates and imports. */
  lemma {:induction false} HistoriesOnlyGrow(imports: seq<Import>, k: nat, c: Text)
    requires k <= |imports| && forall i :: 0 <= i < |imports| ==> SourceOk(imports[i].source)
    ensures Grown(Run(imports[..k]), Run(imports), c)
  {
    if k == |imports| {
      assert imports[..k] == imports;
    } else {
      var before := imports[..|imports| - 1];
      HistoriesOnlyGrow(before, k, c);
      assert before[..k] == imports[..k];
      StepGrows(imports, c);
      GrownFurther(Run(imports[..k]), Run(before), Run(imports), c);
    }
  }

  lemma StepGrows(imports: seq<Import>, c: Text)
    requires imports != [] && forall i :: 0 <= i < |imports| ==> SourceOk(imports[i].source)
    ensures Grown(Run(imports[..|imports| - 1]), Run(imports), c)
  {
    var before, last := imports[..|imports| - 1], imports[|imports| - 1];
    RunKeeps(before);
    ImportKeeps(last.source, Run(before), last.id);
  }

  lemma ValidWhenContiguous(stream: Stream, c: Text, incoming: seq<Row>, stored: seq<Row>)
    requires HistoriesOk(stored) && JudgeOf(stream, c, incoming, stored).Err?
    ensures JudgeOf(stream, c, incoming, stored).error.code != StoredHistoryInvalid
  {
    assert Contiguous(History(stored, c));
  }

  /** No run of imports leaves a history that a later plan finds out of order, or an import
      that it finds twice. */
  lemma StoredHistoryIsValid(imports: seq<Import>, s: Source, c: Text)
    requires forall i :: 0 <= i < |imports| ==> SourceOk(imports[i].source)
    ensures JudgeOf(Captures, c, s.captures, Run(imports).captures)
         != Err(Refusal(Captures, StoredHistoryInvalid, Some(c), None))
    ensures JudgeOf(Decisions, c, s.decisions, Run(imports).decisions)
         != Err(Refusal(Decisions, StoredHistoryInvalid, Some(c), None))
    ensures |Matching(Run(imports).imports, s.key)| <= 1
  {
    RunKeeps(imports);
    var stored := Run(imports);
    if JudgeOf(Captures, c, s.captures, stored.captures).Err? {
      ValidWhenContiguous(Captures, c, s.captures, stored.captures);
    }
    if JudgeOf(Decisions, c, s.decisions, stored.decisions).Err? {
      ValidWhenContiguous(Decisions, c, s.decisions, stored.decisions);
    }
    MatchingOnce(stored.imports, s.key);
  }

  lemma {:induction false} MatchingOnce(imports: seq<ImportRow>, key: AuditKey)
    requires ImportsKeyed(imports)
    ensures |Matching(imports, key)| <= 1
  {
    if imports != [] {
      MatchingOnce(imports[1..], key);
      NoneMatching(imports[1..], key);
    }
  }

  // ---------------------------------------------------------------- what the comparisons compare

  lemma TheMember(m: Member, others: seq<Member>, k: nat)
    requires DistinctKeys(others) && k < |others| && others[k].key == m.key
    ensures HasMember(m, others) <==> Equal(m.value, others[k].value)
  {
  }

  lemma KeysDiffer()
    ensures KEY_CREATOR != KEY_DIGEST && KEY_DIGEST != KEY_VIDEO && KEY_CREATOR != KEY_VIDEO
    ensures KEY_DIGEST != KEY_TERMS && KEY_VIDEO != KEY_FACTS && KEY_CREATOR != KEY_FACTS
  {
    assert KEY_CREATOR[0] == 99 && KEY_DIGEST[0] == 100 && KEY_VIDEO[0] == 118 && KEY_TERMS[0] == 116
        && KEY_FACTS[0] == 102;
  }

  lemma CountsAgree(a: Counts, b: Counts)
    ensures Same(CountsJson(a), CountsJson(b)) <==> a == b
  {
    KeysDiffer();
    if Same(CountsJson(a), CountsJson(b)) {
      SameTextsAreEqual(CountsJson(a), CountsJson(b));
      var x, y := CountsJson(a).members, CountsJson(b).members;
      TheMember(x[0], y, 0);
      TheMember(x[1], y, 1);
      TheMember(x[2], y, 2);
      assert HasMember(x[0], y) && HasMember(x[1], y) && HasMember(x[2], y);
    }
  }

  lemma GatesAgree(g: GateRow, h: GateRow)
    requires WellFormed(g.terms) && WellFormed(h.terms)
    ensures Same(GateJson(g), GateJson(h)) <==> g.digest == h.digest && Equal(g.terms, h.terms)
  {
    KeysDiffer();
    SameDecidesEquality(GateJson(g), GateJson(h));
    var x, y := GateJson(g).members, GateJson(h).members;
    TheMember(x[0], y, 0);
    TheMember(x[1], y, 1);
    assert Equal(GateJson(g), GateJson(h)) <==> HasMember(x[0], y) && HasMember(x[1], y);
  }

  lemma VideoAgrees(v: VideoRow, w: VideoRow)
    ensures Equal(VideoJson(v), VideoJson(w))
        <==> v.creator == w.creator && v.videoId == w.videoId && Equal(v.facts, w.facts)
  {
    KeysDiffer();
    var x, y := VideoJson(v).members, VideoJson(w).members;
    TheMember(x[0], y, 0);
    TheMember(x[1], y, 1);
    TheMember(x[2], y, 2);
    assert Equal(VideoJson(v), VideoJson(w)) <==> HasMember(x[0], y) && HasMember(x[1], y) && HasMember(x[2], y);
  }

  /** Snapshots that compare alike list the same videos, with facts that are equal up to order. */
  lemma VideosAgree(a: seq<VideoRow>, b: seq<VideoRow>)
    requires Same(VideosJson(a), VideosJson(b))
    ensures |a| == |b|
    ensures forall i :: 0 <= i < |a| ==>
      a[i].creator == b[i].creator && a[i].videoId == b[i].videoId && Equal(a[i].facts, b[i].facts)
  {
    SameTextsAreEqual(VideosJson(a), VideosJson(b));
    var x, y := VideosJson(a).items, VideosJson(b).items;
    forall i | 0 <= i < |a|
      ensures a[i].creator == b[i].creator && a[i].videoId == b[i].videoId && Equal(a[i].facts, b[i].facts)
    {
      assert Equal(x[i], y[i]);
      VideoAgrees(a[i], b[i]);
    }
  }

  // ---------------------------------------------------------------- a published store is its source

  lemma RowsAreAll(a: seq<Row>, b: seq<Row>)
    requires forall c :: History(a, c) == RowsOf(b, c)
    ensures multiset(a) == multiset(b)
  {
    forall x
      ensures multiset(a)[x] == multiset(b)[x]
    {
      HistoryRows(a, x.creator);
      RowsOfElements(a, x.creator, x);
      RowsOfElements(b, x.creator, x);
    }
  }

  lemma SameSize<T>(a: seq<T>, b: seq<T>)
    requires multiset(a) == multiset(b)
    ensures |a| == |b|
  {
    assert |multiset(a)| == |multiset(b)|;
  }

  lemma {:induction false} SplitSize(videos: seq<VideoRow>, creator: Text)
    ensures |videos| == |VideosOf(videos, creator)| + |Without(videos, creator)|
    ensures forall v :: v in Without(videos, creator) ==> v in videos && v.creator != creator
  {
    if videos != [] {
      SplitSize(videos[1..], creator);
    }
  }

  lemma OwnerIn(videos: seq<VideoRow>, creators: seq<Text>)
    requires videos != [] && forall v :: v in videos ==> v.creator in creators
    ensures creators != []
  {
    assert videos[0].creator in creators;
  }

  lemma {:induction false} SizeByCreator(a: seq<VideoRow>, b: seq<VideoRow>, creators: seq<Text>)
    requires forall v :: v in a || v in b ==> v.creator in creators
    requires forall i :: 0 <= i < |creators| ==> |VideosOf(a, creators[i])| == |VideosOf(b, creators[i])|
    ensures |a| == |b|
    decreases |creators|
  {
    if creators == [] {
      if a != [] {
        OwnerIn(a, creators);
      }
      if b != [] {
        OwnerIn(b, creators);
      }
    } else {
      var c, rest := creators[0], creators[1..];
      SplitSize(a, c);
      SplitSize(b, c);
      assert forall v :: v in Without(a, c) || v in Without(b, c) ==> v.creator in rest;
      forall i | 0 <= i < |rest|
        ensures |VideosOf(Without(a, c), rest[i])| == |VideosOf(Without(b, c), rest[i])|
      {
        assert rest[i] == creators[i + 1];
        VideosOfWithout(a, c, rest[i]);
        VideosOfWithout(b, c, rest[i]);
      }
      SizeByCreator(Without(a, c), Without(b, c), rest);
    }
  }

  lemma VideosAreAll(s: Source, videos: seq<VideoRow>)
    requires SourceOk(s) && VideosInPlace(s, videos)
    ensures |videos| == |s.videos|
  {
    forall i | 0 <= i < |s.creators|
      ensures |VideosOf(videos, s.creators[i])| == |VideosOf(s.videos, s.creators[i])|
    {
      var own := VideosOf(videos, s.creators[i]);
      SortKeeps(VideoLe, own);
      assert SnapshotOf(s, videos, s.creators[i]).action == Keep;
      VideosAgree(SortBy(VideoLe, own), VideosOf(s.videos, s.creators[i]));
    }
    SizeByCreator(videos, s.videos, s.creators);
  }

  /** After an append the store holds exactly the source's events and decisions and as many videos,
      and the new import row says how many of each there are. */
  lemma ImportCountsTables(s: Source, stored: Stored, id: nat)
    requires SourceOk(s) && StoreOk(stored) && PlanOf(s, stored).Append?
    ensures var after := AfterImport(stored, s, id);
      && multiset(after.captures) == multiset(s.captures) && multiset(after.decisions) == multiset(s.decisions)
      && InPlace(s, after, id)
      && after.imports ==
           stored.imports + [ImportRow(id, s.key, Counts(|after.captures|, |after.decisions|, |after.videos|))]
  {
    var after := AfterImport(stored, s, id);
    AppendLeaves(s, stored, id);
    ReplanIsNoOp(s, stored, id, after);
    NoOpExactlyInPlace(s, after, id);
    RowsAreAll(after.captures, s.captures);
    RowsAreAll(after.decisions, s.decisions);
    SameSize(after.captures, s.captures);
    SameSize(after.decisions, s.decisions);
    VideosAreAll(s, after.videos);
  }

  lemma {:induction false} ReplacedAre(snapshots: seq<Snapshot>) returns (places: set<nat>)
    ensures forall i: nat :: i in places <==> i < |snapshots| && snapshots[i].action == Replace
    ensures |places| == CountReplaced(snapshots)
  {
    if snapshots == [] {
      places := {};
    } else {
      var n := |snapshots| - 1;
      places := ReplacedAre(snapshots[..n]);
      assert forall i :: 0 <= i < n ==> snapshots[..n][i] == snapshots[i];
      if snapshots[n].action == Replace {
        assert n !in places;
        places := places + {n};
      }
    }
  }

  /** The store shows a creator's videos as the source has them. */
  predicate ShowsVideos(s: Source, videos: seq<VideoRow>, creator: Text) {
    Same(VideosJson(SortBy(VideoLe, VideosOf(videos, creator))), VideosJson(VideosOf(s.videos, creator)))
  }

  /** What an append reports: how many rows either history grew by, and how many creators did not
      show the source's videos before. */
  lemma OutcomeCounts(s: Source, stored: Stored, id: nat) returns (replaced: set<nat>)
    requires PlanOf(s, stored).Append?
    ensures var plan, after := PlanOf(s, stored), AfterImport(stored, s, id);
      && |stored.captures| + |plan.captures| == |after.captures|
      && |stored.decisions| + |plan.decisions| == |after.decisions|
      && CountReplaced(plan.snapshots) == |replaced|
    ensures forall i: nat :: i in replaced <==> i < |s.creators| && !ShowsVideos(s, stored.videos, s.creators[i])
  {
    replaced := ReplacedAre(PlanOf(s, stored).snapshots);
  }

  // ---------------------------------------------------------------- when an import is refused

  /** Each stored history is in one piece and the beginning of the incoming one. */
  ghost predicate HistoriesFit(incoming: seq<Row>, stored: seq<Row>) {
    forall c :: HistoryFits(incoming, stored, c)
  }

  ghost predicate HistoryFits(incoming: seq<Row>, stored: seq<Row>, c: Text) {
    var prior, next := History(stored, c), History(incoming, c);
    && Contiguous(prior) && |prior| <= |next|
    && forall i :: 0 <= i < |prior| ==> prior[i].fingerprint == next[i].fingerprint
  }

  /** Against a store that no import has spoilt an import is appended exactly if it is not on
      record, both histories fit, the gate is not another one under the same digest, and no
      creator has dropped out. */
  lemma AppendExactly(s: Source, stored: Stored)
    requires SourceOk(s) && StoreOk(stored)
    ensures PlanOf(s, stored).Append? <==>
      && (forall i :: 0 <= i < |stored.imports| ==> stored.imports[i].key != s.key)
      && HistoriesFit(s.captures, stored.captures) && HistoriesFit(s.decisions, stored.decisions)
      && (forall g :: g in stored.gates && g.digest == s.gate.digest ==> Same(GateJson(g), GateJson(s.gate)))
      && (forall v :: v in stored.videos ==> v.creator in s.creators)
  {
    NothingRefusedMeans(s, stored);
    NoneMatching(stored.imports, s.key);
    HistoriesFitWhen(Captures, s.captures, stored.captures);
    HistoriesFitWhen(Decisions, s.decisions, stored.decisions);
    OneGate(stored.gates, s.gate);
  }

  lemma HistoriesFitWhen(stream: Stream, incoming: seq<Row>, stored: seq<Row>)
    ensures TailOf(stream, incoming, stored).refusals == [] <==> HistoriesFit(incoming, stored)
  {
    NothingRefused(stream, incoming, stored);
    forall c
      ensures Continues(History(stored, c), History(incoming, c)) <==> HistoryFits(incoming, stored, c)
    {
    }
  }

  lemma OneGate(gates: seq<GateRow>, gate: GateRow)
    requires GatesKeyed(gates)
    ensures (FindGate(gates, gate.digest).Some?
        && !Same(GateJson(FindGate(gates, gate.digest).value), GateJson(gate))) <==>
      exists g :: g in gates && g.digest == gate.digest && !Same(GateJson(g), GateJson(gate))
  {
    var found := FindGate(gates, gate.digest);
    if g :| g in gates && g.digest == gate.digest && !Same(GateJson(g), GateJson(gate)) {
      assert found.Some? && g == found.value;
    }
  }

  lemma NotOurs(stream: Stream, incoming: seq<Row>, stored: seq<Row>, r: Refusal)
    requires r.stream != stream
    ensures r !in TailOf(stream, incoming, stored).refusals
  {
    RefusalsSay(stream, incoming, stored, r);
  }

  lemma Pushed<T>(list: seq<T>, when: bool, item: T, x: T)
    ensures x in Push(list, when, item) <==> x in list || (when && x == item)
  {
  }

  lemma RefusalsAre(s: Source, stored: Stored, r: Refusal)
    ensures r in Refusals(s, stored) <==>
      || r in TailOf(Captures, s.captures, stored.captures).refusals
      || r in TailOf(Decisions, s.decisions, stored.decisions).refusals
      || (GateChanged(s, stored) && r == Refusal(Gate, HistoryChanged, None, None))
      || ((|Matching(stored.imports, s.key)| > 1 || Stray(s, stored)) && r == ProjectionRefusal(StoredHistoryInvalid))
      || (Matching(stored.imports, s.key) != [] && Drifted(s, stored, Matching(stored.imports, s.key)[0])
          && r == ProjectionRefusal(ImportProjectionDrift))
  {
  }

  /** What an import on record is checked for: its counts, the two histories, the gate and every
      creator's videos. */
  ghost predicate StillShown(s: Source, stored: Stored, counts: Counts) {
    && counts == Counts(|s.captures|, |s.decisions|, |s.videos|)
    && TailOf(Captures, s.captures, stored.captures).append == []
    && TailOf(Decisions, s.decisions, stored.decisions).append == []
    && (exists g :: g in stored.gates && g.digest == s.gate.digest)
    && forall i :: 0 <= i < |s.creators| ==> ShowsVideos(s, stored.videos, s.creators[i])
  }

  lemma DriftedWhen(s: Source, stored: Stored, row: ImportRow)
    ensures Drifted(s, stored, row) <==> !StillShown(s, stored, row.counts)
  {
    CountsAgree(row.counts, Counts(|s.captures|, |s.decisions|, |s.videos|));
    var found := FindGate(stored.gates, s.gate.digest);
    SnapshotsKept(s, stored.videos);
    forall i | 0 <= i < |s.creators|
      ensures SnapshotOf(s, stored.videos, s.creators[i]).action == Keep
          <==> ShowsVideos(s, stored.videos, s.creators[i])
    {
    }
  }

  /** Beyond the histories, an import is refused for a gate that differs under the same digest, for
      a creator that has dropped out, and for an import on record that the store no longer shows. */
  lemma RefusedExactly(s: Source, stored: Stored)
    requires SourceOk(s) && StoreOk(stored)
    ensures var r := Refusals(s, stored);
      && (Refusal(Gate, HistoryChanged, None, None) in r <==>
            exists g :: g in stored.gates && g.digest == s.gate.digest && !Same(GateJson(g), GateJson(s.gate)))
      && (ProjectionRefusal(StoredHistoryInvalid) in r <==> exists v :: v in stored.videos && v.creator !in s.creators)
      && (ProjectionRefusal(ImportProjectionDrift) in r <==>
            exists i :: 0 <= i < |stored.imports| && stored.imports[i].key == s.key
                && !StillShown(s, stored, stored.imports[i].counts))
  {
    var gate, invalid, drift := Refusal(Gate, HistoryChanged, None, None), ProjectionRefusal(StoredHistoryInvalid),
                                ProjectionRefusal(ImportProjectionDrift);
    forall r | r == gate || r == invalid || r == drift
      ensures r !in TailOf(Captures, s.captures, stored.captures).refusals
      ensures r !in TailOf(Decisions, s.decisions, stored.decisions).refusals
    {
      NotOurs(Captures, s.captures, stored.captures, r);
      NotOurs(Decisions, s.decisions, stored.decisions, r);
    }
    RefusalsAre(s, stored, gate);
    RefusalsAre(s, stored, invalid);
    RefusalsAre(s, stored, drift);
    OneGate(stored.gates, s.gate);
    MatchingOnce(stored.imports, s.key);
    TheMatch(stored.imports, s.key);
    if Matching(stored.imports, s.key) != [] {
      DriftedWhen(s, stored, Matching(stored.imports, s.key)[0]);
    }
  }

  /** Under unique keys the first match is the only one. */
  lemma {:induction false} TheMatch(imports: seq<ImportRow>, key: AuditKey)
    requires ImportsKeyed(imports)
    ensures forall i :: 0 <= i < |imports| && imports[i].key == key ==> Matching(imports, key) == [imports[i]]
    ensures Matching(imports, key) != [] ==>
      exists i :: 0 <= i < |imports| && imports[i].key == key && Matching(imports, key) == [imports[i]]
  {
    if imports != [] {
      assert forall i :: 0 <= i < |imports| - 1 ==> imports[1..][i] == imports[i + 1];
      assert ImportsKeyed(imports[1..]);
      TheMatch(imports[1..], key);
      NoneMatching(imports[1..], key);
      if imports[0].key != key && Matching(imports[1..], key) != [] {
        var i :| 0 <= i < |imports| - 1 && imports[1..][i].key == key
            && Matching(imports[1..], key) == [imports[1..][i]];
        assert imports[i + 1].key == key;
      }
    }
  }
}
