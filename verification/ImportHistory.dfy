/** The histories an append-only import continues. */
module ImportHistory {
  // Numbering events, and deciding per creator whether the stored history is continued, and by
  // what.  A fingerprint is modelled by the canonical text that is hashed.

  import opened Wrappers
  import opened Sorting
  import opened CanonicalJson

  // ---------------------------------------------------------------- projections

  datatype Event = Event(creator: Text, body: Json)

  /** One creator's decisions, as the decisions file holds them under its key. */
  datatype Decided = Decided(creator: Text, events: seq<Json>)

  datatype Row = Row(creator: Text, position: int, fingerprint: Text)

  function RowsOf(rows: seq<Row>, creator: Text): seq<Row> {
    if rows == [] then []
    else if rows[0].creator == creator then [rows[0]] + RowsOf(rows[1..], creator)
    else RowsOf(rows[1..], creator)
  }

  lemma {:induction false} RowsOfIn(rows: seq<Row>, creator: Text)
    ensures forall x :: x in RowsOf(rows, creator) <==> x in rows && x.creator == creator
  {
    if rows != [] {
      RowsOfIn(rows[1..], creator);
      assert rows == [rows[0]] + rows[1..];
    }
  }

  predicate Contiguous(rows: seq<Row>) {
    forall i :: 0 <= i < |rows| ==> rows[i].position == i + 1
  }

  /** Every creator's rows are numbered 1, 2, 3, ... in the order they stand. */
  ghost predicate Numbered(rows: seq<Row>) {
    forall c :: Contiguous(RowsOf(rows, c))
  }

  lemma {:induction false} RowsOfConcat(a: seq<Row>, b: seq<Row>, creator: Text)
    ensures RowsOf(a + b, creator) == RowsOf(a, creator) + RowsOf(b, creator)
  {
    if a == [] {
      assert a + b == b;
    } else {
      RowsOfConcat(a[1..], b, creator);
      assert (a + b)[1..] == a[1..] + b;
    }
  }

  lemma {:induction false} RowsOfOne(rows: seq<Row>, owner: Text, creator: Text)
    requires forall x :: x in rows ==> x.creator == owner
    ensures RowsOf(rows, creator) == if creator == owner then rows else []
  {
    if rows != [] {
      RowsOfOne(rows[1..], owner, creator);
    }
  }

  lemma {:induction false} RowsOfElements(rows: seq<Row>, creator: Text, x: Row)
    ensures multiset(RowsOf(rows, creator))[x] == if x.creator == creator then multiset(rows)[x] else 0
  {
    if rows != [] {
      RowsOfElements(rows[1..], creator, x);
      assert rows == [rows[0]] + rows[1..];
    }
  }

  lemma RowsOfRearranged(a: seq<Row>, b: seq<Row>, creator: Text)
    requires multiset(a) == multiset(b)
    ensures multiset(RowsOf(a, creator)) == multiset(RowsOf(b, creator))
  {
    forall x
      ensures multiset(RowsOf(a, creator))[x] == multiset(RowsOf(b, creator))[x]
    {
      RowsOfElements(a, creator, x);
      RowsOfElements(b, creator, x);
    }
  }

  ghost function Projected(events: seq<Event>): (rows: seq<Row>)
    ensures |rows| == |events|
  {
    if events == [] then []
    else
      var before := Projected(events[..|events| - 1]);
      var last := events[|events| - 1];
      before + [Row(last.creator, |RowsOf(before, last.creator)| + 1, Canonical(last.body))]
  }

  lemma {:induction false} ProjectedIsNumbered(events: seq<Event>)
    ensures Numbered(Projected(events))
  {
    if events != [] {
      var before := events[..|events| - 1];
      ProjectedIsNumbered(before);
      var rows := Projected(events);
      forall c
        ensures Contiguous(RowsOf(rows, c))
      {
        RowsOfConcat(Projected(before), [rows[|rows| - 1]], c);
        RowsOfOne([rows[|rows| - 1]], rows[|rows| - 1].creator, c);
        assert Contiguous(RowsOf(Projected(before), c));
      }
    }
  }

  lemma {:induction false} ProjectedKeepsOrder(events: seq<Event>)
    ensures forall i :: 0 <= i < |events| ==>
      Projected(events)[i].creator == events[i].creator && Projected(events)[i].fingerprint == Canonical(events[i].body)
  {
    if events != [] {
      ProjectedKeepsOrder(events[..|events| - 1]);
    }
  }

  /** The map holds how many rows each creator has. */
  ghost predicate Counted(positions: map<Text, nat>, rows: seq<Row>) {
    forall c :: (if c in positions then positions[c] else 0) == |RowsOf(rows, c)|
  }

  lemma CountedGrows(positions: map<Text, nat>, rows: seq<Row>, row: Row)
    requires Counted(positions, rows) && row.position == |RowsOf(rows, row.creator)| + 1
    ensures Counted(positions[row.creator := row.position], rows + [row])
  {
    forall c
      ensures |RowsOf(rows + [row], c)| == |RowsOf(rows, c)| + if c == row.creator then 1 else 0
    {
      RowsOfConcat(rows, [row], c);
      RowsOfOne([row], row.creator, c);
    }
  }

  lemma ProjectedGrows(events: seq<Event>, i: nat)
    requires i < |events|
    ensures var before, event := Projected(events[..i]), events[i];
      Projected(events[..i + 1])
      == before + [Row(event.creator, |RowsOf(before, event.creator)| + 1, Canonical(event.body))]
  {
    assert events[..i + 1][..i] == events[..i];
  }

  /** The map counts what has been seen of each creator; the log keeps its order. */
  method CaptureProjections(events: seq<Event>) returns (rows: seq<Row>)
    ensures rows == Projected(events)
    ensures Numbered(rows)
    ensures |rows| == |events|
    ensures forall i :: 0 <= i < |rows| ==>
      rows[i].creator == events[i].creator && rows[i].fingerprint == Canonical(events[i].body)
  {
    var positions: map<Text, nat> := map[];
    rows := [];
    for i := 0 to |events|
      invariant rows == Projected(events[..i])
      invariant Counted(positions, rows)
    {
      var event := events[i];
      var position := (if event.creator in positions then positions[event.creator] else 0) + 1;
      var row := Row(event.creator, position, Canonical(event.body));
      CountedGrows(positions, rows, row);
      ProjectedGrows(events, i);
      positions := positions[event.creator := position];
      rows := rows + [row];
    }
    assert events[..|events|] == events;
    ProjectedKeepsOrder(events);
    ProjectedIsNumbered(events);
  }

  function DecidedRows(creator: Text, events: seq<Json>): (rows: seq<Row>)
    ensures |rows| == |events|
    ensures forall i :: 0 <= i < |rows| ==> rows[i] == Row(creator, i + 1, Canonical(events[i]))
  {
    seq(|events|, i requires 0 <= i < |events| => Row(creator, i + 1, Canonical(events[i])))
  }

  function DecidedLe(a: Decided, b: Decided): bool {
    TextLe(a.creator, b.creator)
  }

  function Flattened(file: seq<Decided>): seq<Row> {
    if file == [] then [] else DecidedRows(file[0].creator, file[0].events) + Flattened(file[1..])
  }

  function DecisionProjections(file: seq<Decided>): seq<Row> {
    Flattened(SortBy(DecidedLe, file))
  }

  /** The keys of an object: no creator stands twice in the file. */
  ghost predicate OncePerCreator(file: seq<Decided>) {
    forall i, j :: 0 <= i < j < |file| ==> file[i].creator != file[j].creator
  }

  lemma FlattenedStep(file: seq<Decided>, creator: Text)
    requires file != []
    ensures RowsOf(Flattened(file), creator)
         == (if file[0].creator == creator then DecidedRows(creator, file[0].events) else [])
            + RowsOf(Flattened(file[1..]), creator)
  {
    var head := DecidedRows(file[0].creator, file[0].events);
    RowsOfConcat(head, Flattened(file[1..]), creator);
    RowsOfOne(head, file[0].creator, creator);
  }

  lemma {:induction false} FlattenedWithout(file: seq<Decided>, creator: Text)
    requires forall k :: 0 <= k < |file| ==> file[k].creator != creator
    ensures RowsOf(Flattened(file), creator) == []
  {
    if file != [] {
      FlattenedStep(file, creator);
      FlattenedWithout(file[1..], creator);
    }
  }

  lemma {:induction false} FlattenedOf(file: seq<Decided>, k: nat)
    requires OncePerCreator(file) && k < |file|
    ensures RowsOf(Flattened(file), file[k].creator) == DecidedRows(file[k].creator, file[k].events)
  {
    FlattenedStep(file, file[k].creator);
    if k == 0 {
      FlattenedWithout(file[1..], file[0].creator);
    } else {
      FlattenedOf(file[1..], k - 1);
    }
  }

  function OwnerOf(d: Decided): Text {
    d.creator
  }

  lemma OnceAnyOrder(a: seq<Decided>, b: seq<Decided>)
    requires OncePerCreator(a) && multiset(a) == multiset(b)
    ensures OncePerCreator(b)
  {
    KeyedAnyOrder(OwnerOf, a, b);
  }

  /** The decisions of each creator, in file order, whatever order the file lists the creators in. */
  lemma DecisionsOf(file: seq<Decided>, k: nat)
    requires OncePerCreator(file) && k < |file|
    ensures RowsOf(DecisionProjections(file), file[k].creator) == DecidedRows(file[k].creator, file[k].events)
  {
    var sorted := SortBy(DecidedLe, file);
    SortKeeps(DecidedLe, file);
    OnceAnyOrder(file, sorted);
    SameElements(file, sorted);
    assert file[k] in sorted;
    var j :| 0 <= j < |sorted| && sorted[j] == file[k];
    FlattenedOf(sorted, j);
  }

  /** Of two rows the earlier one is of the same creator and an earlier position, or of a creator
      before the other's. */
  ghost predicate RowsInOrder(rows: seq<Row>) {
    forall i, j :: 0 <= i < j < |rows| ==>
      TextLe(rows[i].creator, rows[j].creator)
          && (rows[i].creator == rows[j].creator ==> rows[i].position < rows[j].position)
  }

  lemma {:induction false} FlattenedOwners(file: seq<Decided>, row: Row)
    requires row in Flattened(file)
    ensures exists k :: 0 <= k < |file| && file[k].creator == row.creator
  {
    if file != [] && row !in DecidedRows(file[0].creator, file[0].events) {
      FlattenedOwners(file[1..], row);
      var k :| 0 <= k < |file| - 1 && file[1..][k].creator == row.creator;
      assert file[k + 1].creator == row.creator;
    }
  }

  lemma {:induction false} FlattenedInOrder(file: seq<Decided>)
    requires OncePerCreator(file) && Sorted(DecidedLe, file)
    ensures RowsInOrder(Flattened(file))
  {
    if file != [] {
      FlattenedInOrder(file[1..]);
      var first, rest := DecidedRows(file[0].creator, file[0].events), Flattened(file[1..]);
      forall j | 0 <= j < |rest|
        ensures TextLe(file[0].creator, rest[j].creator) && file[0].creator != rest[j].creator
      {
        FlattenedOwners(file[1..], rest[j]);
        var k :| 0 <= k < |file| - 1 && file[1..][k].creator == rest[j].creator;
        assert DecidedLe(file[0], file[k + 1]);
      }
      TextOrder();
    }
  }

  /** Decisions are listed by creator, and each creator's in file order. */
  lemma DecisionsInOrder(file: seq<Decided>)
    requires OncePerCreator(file)
    ensures RowsInOrder(DecisionProjections(file))
  {
    TextOrder();
    SortSorts(DecidedLe, file);
    SortKeeps(DecidedLe, file);
    OnceAnyOrder(file, SortBy(DecidedLe, file));
    FlattenedInOrder(SortBy(DecidedLe, file));
  }

  lemma DecisionsAreNumbered(file: seq<Decided>)
    requires OncePerCreator(file)
    ensures Numbered(DecisionProjections(file))
  {
    var sorted := SortBy(DecidedLe, file);
    SortKeeps(DecidedLe, file);
    OnceAnyOrder(file, sorted);
    forall c
      ensures Contiguous(RowsOf(Flattened(sorted), c))
    {
      if k: nat :| k < |sorted| && sorted[k].creator == c {
        FlattenedOf(sorted, k);
      } else {
        FlattenedWithout(sorted, c);
      }
    }
  }

  // ---------------------------------------------------------------- histories

  datatype Stream = Captures | Decisions | Gate | Projection

  datatype Code = StoredHistoryInvalid | HistoryTruncated | HistoryChanged | ImportProjectionDrift

  datatype Refusal = Refusal(stream: Stream, code: Code, creator: Option<Text>, position: Option<nat>)

  function PositionLe(a: Row, b: Row): bool {
    a.position <= b.position
  }

  function History(rows: seq<Row>, creator: Text): seq<Row> {
    SortBy(PositionLe, RowsOf(rows, creator))
  }

  /** The first index at which two histories show different events, or the end of the shorter. */
  function FirstChange(prior: seq<Row>, next: seq<Row>, from: nat): (k: nat)
    requires from <= |prior| <= |next|
    ensures from <= k <= |prior|
    ensures forall i :: from <= i < k ==> prior[i].fingerprint == next[i].fingerprint
    ensures k < |prior| ==> prior[k].fingerprint != next[k].fingerprint
    decreases |prior| - from
  {
    if from == |prior| || prior[from].fingerprint != next[from].fingerprint then from
    else FirstChange(prior, next, from + 1)
  }

  /** What one creator's histories amount to: the rows to append, or why there are none. */
  function Judge(stream: Stream, creator: Text, prior: seq<Row>, next: seq<Row>): Result<seq<Row>, Refusal> {
    if !Contiguous(prior) then Err(Refusal(stream, StoredHistoryInvalid, Some(creator), None))
    else if |next| < |prior| then Err(Refusal(stream, HistoryTruncated, Some(creator), Some(|next| + 1)))
    else
      var changed := FirstChange(prior, next, 0);
      if changed < |prior| then Err(Refusal(stream, HistoryChanged, Some(creator), Some(changed + 1)))
      else Ok(next[|prior|..])
  }

  function JudgeOf(stream: Stream, creator: Text, incoming: seq<Row>, stored: seq<Row>): Result<seq<Row>, Refusal> {
    Judge(stream, creator, History(stored, creator), History(incoming, creator))
  }

  /** A stored history that the incoming one continues: in one piece, no longer, and the same
      events as far as it goes. */
  ghost predicate Continues(prior: seq<Row>, next: seq<Row>) {
    Contiguous(prior) && |prior| <= |next| && forall i :: 0 <= i < |prior| ==>
        prior[i].fingerprint == next[i].fingerprint
  }

  function Distinct(names: seq<Text>): (r: seq<Text>)
    ensures forall i, j :: 0 <= i < j < |r| ==> r[i] != r[j]
    ensures forall x :: x in r <==> x in names
  {
    if names == [] then []
    else
      var r := Distinct(names[..|names| - 1]);
      assert names == names[..|names| - 1] + [names[|names| - 1]];
      if names[|names| - 1] in r then r else r + [names[|names| - 1]]
  }

  function Names(rows: seq<Row>): (names: seq<Text>)
    ensures |names| == |rows|
    ensures forall i :: 0 <= i < |rows| ==> names[i] == rows[i].creator
  {
    seq(|rows|, i requires 0 <= i < |rows| => rows[i].creator)
  }

  function Creators(incoming: seq<Row>, stored: seq<Row>): seq<Text> {
    SortBy(TextLe, Distinct(Names(incoming) + Names(stored)))
  }

  function Appends(stream: Stream, creators: seq<Text>, incoming: seq<Row>, stored: seq<Row>): seq<Row> {
    if creators == [] then []
    else
      var before := Appends(stream, creators[..|creators| - 1], incoming, stored);
      match JudgeOf(stream, creators[|creators| - 1], incoming, stored)
      case Ok(tail) => before + tail
      case Err(_) => before
  }

  function Refused(stream: Stream, creators: seq<Text>, incoming: seq<Row>, stored: seq<Row>): seq<Refusal> {
    if creators == [] then []
    else
      var before := Refused(stream, creators[..|creators| - 1], incoming, stored);
      match JudgeOf(stream, creators[|creators| - 1], incoming, stored)
      case Ok(_) => before
      case Err(refusal) => before + [refusal]
  }

  datatype Tail = Tail(append: seq<Row>, refusals: seq<Refusal>)

  function TailOf(stream: Stream, incoming: seq<Row>, stored: seq<Row>): Tail {
    var creators := Creators(incoming, stored);
    Tail(Appends(stream, creators, incoming, stored), Refused(stream, creators, incoming, stored))
  }

  lemma OneMoreCreator(stream: Stream, creators: seq<Text>, i: nat, incoming: seq<Row>, stored: seq<Row>)
    requires i < |creators|
    ensures Appends(stream, creators[..i + 1], incoming, stored)
         == Appends(stream, creators[..i], incoming, stored)
            + match JudgeOf(stream, creators[i], incoming, stored) case Ok(tail) => tail case Err(_) => []
    ensures Refused(stream, creators[..i + 1], incoming, stored)
         == Refused(stream, creators[..i], incoming, stored)
            + match JudgeOf(stream, creators[i], incoming, stored) case Ok(_) => [] case Err(refusal) => [refusal]
  {
    assert creators[..i + 1][..i] == creators[..i];
  }

  method HistoryTail(stream: Stream, incoming: seq<Row>, stored: seq<Row>)
    returns (append: seq<Row>, refusals: seq<Refusal>)
    ensures Tail(append, refusals) == TailOf(stream, incoming, stored)
  {
    var creators := Creators(incoming, stored);
    append, refusals := [], [];
    for i := 0 to |creators|
      invariant append == Appends(stream, creators[..i], incoming, stored)
      invariant refusals == Refused(stream, creators[..i], incoming, stored)
    {
      OneMoreCreator(stream, creators, i, incoming, stored);
      var next := SortBy(PositionLe, RowsOf(incoming, creators[i]));
      var prior := SortBy(PositionLe, RowsOf(stored, creators[i]));
      match Judge(stream, creators[i], prior, next)
      case Err(refusal) => refusals := refusals + [refusal];
      case Ok(tail) => append := append + tail;
    }
    assert creators[..|creators|] == creators;
  }

  function Itself(name: Text): Text {
    name
  }

  lemma CreatorsAre(incoming: seq<Row>, stored: seq<Row>)
    ensures forall c :: c in Creators(incoming, stored) <==> RowsOf(incoming, c) != [] || RowsOf(stored, c) != []
    ensures forall i, j :: 0 <= i < j < |Creators(incoming, stored)| ==>
      Creators(incoming, stored)[i] != Creators(incoming, stored)[j]
  {
    var names := Names(incoming) + Names(stored);
    SortKeeps(TextLe, Distinct(names));
    SameElements(Distinct(names), SortBy(TextLe, Distinct(names)));
    KeyedAnyOrder(Itself, Distinct(names), SortBy(TextLe, Distinct(names)));
    forall c
      ensures c in Creators(incoming, stored) <==> RowsOf(incoming, c) != [] || RowsOf(stored, c) != []
    {
      NamedHere(incoming, c);
      NamedHere(stored, c);
      assert c in names <==> c in Names(incoming) || c in Names(stored);
    }
  }

  lemma NamedHere(rows: seq<Row>, c: Text)
    ensures c in Names(rows) <==> RowsOf(rows, c) != []
  {
    RowsOfIn(rows, c);
    if c in Names(rows) {
      var i :| 0 <= i < |rows| && Names(rows)[i] == c;
      assert rows[i] in RowsOf(rows, c);
    }
    if RowsOf(rows, c) != [] {
      assert RowsOf(rows, c)[0] in rows;
      var i :| 0 <= i < |rows| && rows[i] == RowsOf(rows, c)[0];
      assert Names(rows)[i] == c;
    }
  }

  lemma {:induction false} RefusedWhen(stream: Stream, creators: seq<Text>, incoming: seq<Row>, stored: seq<Row>)
    ensures Refused(stream, creators, incoming, stored) == []
       <==> forall c :: c in creators ==> JudgeOf(stream, c, incoming, stored).Ok?
  {
    if creators != [] {
      var n := |creators| - 1;
      RefusedWhen(stream, creators[..n], incoming, stored);
      assert Refused(stream, creators, incoming, stored) == [] <==>
        Refused(stream, creators[..n], incoming, stored) == [] && JudgeOf(stream, creators[n], incoming, stored).Ok?;
      assert forall c :: c in creators <==> c in creators[..n] || c == creators[n];
    }
  }

  /** No refusal exactly when every creator's stored history is one piece that the incoming
      history continues. */
  lemma NothingRefused(stream: Stream, incoming: seq<Row>, stored: seq<Row>)
    ensures TailOf(stream, incoming, stored).refusals == []
       <==> forall c :: Continues(History(stored, c), History(incoming, c))
  {
    var creators := Creators(incoming, stored);
    CreatorsAre(incoming, stored);
    RefusedWhen(stream, creators, incoming, stored);
    forall c
      ensures JudgeOf(stream, c, incoming, stored).Ok? <==> Continues(History(stored, c), History(incoming, c))
      ensures c !in creators ==> Continues(History(stored, c), History(incoming, c))
    {
    }
    if TailOf(stream, incoming, stored).refusals == [] {
      forall c
        ensures Continues(History(stored, c), History(incoming, c))
      {
        assert c in creators ==> JudgeOf(stream, c, incoming, stored).Ok?;
      }
    }
  }

  lemma HistoryRows(rows: seq<Row>, creator: Text)
    ensures multiset(History(rows, creator)) == multiset(RowsOf(rows, creator))
    ensures forall x :: x in History(rows, creator) ==> x in rows && x.creator == creator
  {
    SortKeeps(PositionLe, RowsOf(rows, creator));
    SameElements(RowsOf(rows, creator), History(rows, creator));
    RowsOfIn(rows, creator);
  }

  lemma TailIsOwned(stream: Stream, owner: Text, incoming: seq<Row>, stored: seq<Row>, c: Text)
    requires JudgeOf(stream, owner, incoming, stored).Ok?
    ensures RowsOf(JudgeOf(stream, owner, incoming, stored).value, c)
         == if c == owner then JudgeOf(stream, owner, incoming, stored).value else []
  {
    HistoryRows(incoming, owner);
    RowsOfOne(JudgeOf(stream, owner, incoming, stored).value, owner, c);
  }

  /** What a creator's verdict appends. */
  ghost function TailFor(stream: Stream, c: Text, incoming: seq<Row>, stored: seq<Row>): seq<Row> {
    if JudgeOf(stream, c, incoming, stored).Ok? then JudgeOf(stream, c, incoming, stored).value else []
  }

  lemma AppendsOneMore(stream: Stream, creators: seq<Text>, k: nat, incoming: seq<Row>, stored: seq<Row>, c: Text)
    requires k < |creators|
    ensures RowsOf(Appends(stream, creators[..k + 1], incoming, stored), c)
         == RowsOf(Appends(stream, creators[..k], incoming, stored), c)
            + if creators[k] == c then TailFor(stream, c, incoming, stored) else []
  {
    var last := creators[k];
    assert creators[..k + 1][..k] == creators[..k];
    if JudgeOf(stream, last, incoming, stored).Ok? {
      TailIsOwned(stream, last, incoming, stored, c);
      RowsOfConcat(Appends(stream, creators[..k], incoming, stored), JudgeOf(stream, last, incoming, stored).value, c);
    }
  }

  /** A creator's rows in what the first creators append, for each number of them. */
  ghost function Grown(stream: Stream, creators: seq<Text>, incoming: seq<Row>, stored: seq<Row>,
      c: Text): (grown: seq<seq<Row>>)
    ensures |grown| == |creators| + 1
    ensures forall k :: 0 <= k <= |creators| ==> grown[k] == RowsOf(Appends(stream, creators[..k], incoming, stored), c)
  {
    seq(|creators| + 1, k requires 0 <= k <= |creators| => RowsOf(Appends(stream, creators[..k], incoming, stored), c))
  }

  /** Rows that grow by a creator's own when its turn comes hold these once its turn has come. */
  lemma {:induction false} OwnOnce(grown: seq<seq<Row>>, creators: seq<Text>, c: Text, own: seq<Row>, k: nat)
    requires |grown| == |creators| + 1 && k <= |creators| && grown[0] == []
    requires forall i, j :: 0 <= i < j < |creators| ==> creators[i] != creators[j]
    requires forall i :: 0 <= i < |creators| ==> grown[i + 1] == grown[i] + if creators[i] == c then own else []
    ensures grown[k] == if c in creators[..k] then own else []
  {
    if k > 0 {
      OwnOnce(grown, creators, c, own, k - 1);
      assert creators[..k] == creators[..k - 1] + [creators[k - 1]];
    }
  }

  /** Each creator gets its own tail and nothing else. */
  lemma AppendsOf(stream: Stream, creators: seq<Text>, incoming: seq<Row>, stored: seq<Row>, c: Text)
    requires forall i, j :: 0 <= i < j < |creators| ==> creators[i] != creators[j]
    ensures RowsOf(Appends(stream, creators, incoming, stored), c)
         == if c in creators && JudgeOf(stream, c, incoming, stored).Ok?
            then JudgeOf(stream, c, incoming, stored).value else []
  {
    var n, own := |creators|, TailFor(stream, c, incoming, stored);
    var grown := Grown(stream, creators, incoming, stored, c);
    forall k | 0 <= k < n
      ensures grown[k + 1] == grown[k] + if creators[k] == c then own else []
    {
      AppendsOneMore(stream, creators, k, incoming, stored, c);
    }
    OwnOnce(grown, creators, c, own, n);
    assert creators[..n] == creators;
  }

  lemma NumberedHistory(rows: seq<Row>, creator: Text)
    requires Numbered(rows)
    ensures History(rows, creator) == RowsOf(rows, creator)
    ensures Contiguous(History(rows, creator))
  {
    assert Contiguous(RowsOf(rows, creator));
    SortOfSorted(PositionLe, RowsOf(rows, creator));
  }

  /** Numbered rows of one creator that show the same events are the same rows. */
  lemma ContinuesIsPrefix(prior: seq<Row>, next: seq<Row>, creator: Text)
    requires Continues(prior, next) && Contiguous(next)
    requires forall i :: 0 <= i < |prior| ==> prior[i].creator == creator
    requires forall i :: 0 <= i < |next| ==> next[i].creator == creator
    ensures prior == next[..|prior|]
  {
    forall i | 0 <= i < |prior|
      ensures prior[i] == next[i]
    {
      assert prior[i].creator == next[i].creator && prior[i].position == next[i].position;
    }
  }

  lemma HistoryOwner(rows: seq<Row>, creator: Text)
    ensures forall i :: 0 <= i < |History(rows, creator)| ==> History(rows, creator)[i].creator == creator
  {
    HistoryRows(rows, creator);
    assert forall i :: 0 <= i < |History(rows, creator)| ==> History(rows, creator)[i] in History(rows, creator);
  }

  lemma JudgedTail(stream: Stream, incoming: seq<Row>, stored: seq<Row>, creator: Text)
    requires TailOf(stream, incoming, stored).refusals == []
    ensures Continues(History(stored, creator), History(incoming, creator))
    ensures RowsOf(TailOf(stream, incoming, stored).append, creator)
         == History(incoming, creator)[|History(stored, creator)|..]
  {
    var creators := Creators(incoming, stored);
    NothingRefused(stream, incoming, stored);
    assert Continues(History(stored, creator), History(incoming, creator));
    CreatorsAre(incoming, stored);
    AppendsOf(stream, creators, incoming, stored, creator);
  }

  /** When nothing is refused, what is stored followed by what is appended is what came in. */
  lemma StoredPlusAppended(stream: Stream, incoming: seq<Row>, stored: seq<Row>, creator: Text)
    requires Numbered(incoming)
    requires TailOf(stream, incoming, stored).refusals == []
    ensures History(stored, creator) + RowsOf(TailOf(stream, incoming, stored).append, creator)
         == RowsOf(incoming, creator)
  {
    JudgedTail(stream, incoming, stored, creator);
    NumberedHistory(incoming, creator);
    HistoryOwner(stored, creator);
    HistoryOwner(incoming, creator);
    ContinuesIsPrefix(History(stored, creator), History(incoming, creator), creator);
  }

  /** Rows that arrive in any order settle into the history they are numbered for. */
  lemma HistoryForgetsOrder(rows: seq<Row>, creator: Text, history: seq<Row>)
    requires multiset(RowsOf(rows, creator)) == multiset(history) && Contiguous(history)
    ensures History(rows, creator) == history
  {
    SortForgetsOrder(PositionLe, history, RowsOf(rows, creator));
    SortOfSorted(PositionLe, history);
  }

  /** Once the tail is stored, in whatever row order, every history is the incoming one. */
  lemma HistoryAfterAppend(stream: Stream, incoming: seq<Row>, stored: seq<Row>, view: seq<Row>, creator: Text)
    requires Numbered(incoming)
    requires TailOf(stream, incoming, stored).refusals == []
    requires multiset(view) == multiset(stored + TailOf(stream, incoming, stored).append)
    ensures History(view, creator) == RowsOf(incoming, creator)
  {
    var append := TailOf(stream, incoming, stored).append;
    StoredPlusAppended(stream, incoming, stored, creator);
    RowsOfRearranged(view, stored + append, creator);
    RowsOfConcat(stored, append, creator);
    HistoryRows(stored, creator);
    NumberedHistory(incoming, creator);
    HistoryForgetsOrder(view, creator, RowsOf(incoming, creator));
  }

  lemma {:induction false} AppendsNothing(stream: Stream, creators: seq<Text>, incoming: seq<Row>, stored: seq<Row>)
    requires forall c :: History(stored, c) == History(incoming, c)
    ensures Appends(stream, creators, incoming, stored) == []
  {
    if creators != [] {
      AppendsNothing(stream, creators[..|creators| - 1], incoming, stored);
      assert History(stored, creators[|creators| - 1]) == History(incoming, creators[|creators| - 1]);
    }
  }

  /** A store that already holds every history is asked for nothing more. */
  lemma NothingLeft(stream: Stream, incoming: seq<Row>, view: seq<Row>)
    requires Numbered(incoming)
    requires forall c :: History(view, c) == RowsOf(incoming, c)
    ensures TailOf(stream, incoming, view) == Tail([], [])
  {
    forall c
      ensures History(view, c) == History(incoming, c)
      ensures Continues(History(view, c), History(incoming, c))
    {
      NumberedHistory(incoming, c);
    }
    NothingRefused(stream, incoming, view);
    AppendsNothing(stream, Creators(incoming, view), incoming, view);
  }

  // ---------------------------------------------------------------- what a refusal says

  /** A creator's histories do not fit in the way the refusal says, at the first place they do not. */
  ghost predicate Misfit(stream: Stream, incoming: seq<Row>, stored: seq<Row>, r: Refusal) {
    && r.stream == stream && r.creator.Some?
    && var prior, next := History(stored, r.creator.value), History(incoming, r.creator.value);
       match r.code
       case StoredHistoryInvalid => r.position.None? && exists i :: 0 <= i < |prior| && prior[i].position != i + 1
       case HistoryTruncated => Contiguous(prior) && |next| < |prior| && r.position == Some(|next| + 1)
       case HistoryChanged =>
         && Contiguous(prior) && |prior| <= |next| && r.position.Some? && 1 <= r.position.value <= |prior|
         && prior[r.position.value - 1].fingerprint != next[r.position.value - 1].fingerprint
         && forall i :: 0 <= i < r.position.value - 1 ==> prior[i].fingerprint == next[i].fingerprint
       case ImportProjectionDrift => false
  }

  lemma JudgedMisfit(stream: Stream, creator: Text, incoming: seq<Row>, stored: seq<Row>, r: Refusal)
    ensures JudgeOf(stream, creator, incoming, stored) == Err(r) <==>
      r.creator == Some(creator) && Misfit(stream, incoming, stored, r)
  {
    var prior, next := History(stored, creator), History(incoming, creator);
    if Contiguous(prior) && |prior| <= |next| {
      var k := FirstChange(prior, next, 0);
      if r.creator == Some(creator) && Misfit(stream, incoming, stored, r) {
        assert r.position.value - 1 == k;
      }
    }
  }

  lemma {:induction false} RefusedIs(stream: Stream, creators: seq<Text>, incoming: seq<Row>, stored: seq<Row>,
      r: Refusal)
    ensures r in Refused(stream, creators, incoming, stored) <==>
      r.creator.Some? && r.creator.value in creators && Misfit(stream, incoming, stored, r)
  {
    if creators != [] {
      var n := |creators| - 1;
      RefusedIs(stream, creators[..n], incoming, stored, r);
      JudgedMisfit(stream, creators[n], incoming, stored, r);
      OneMoreCreator(stream, creators, n, incoming, stored);
      assert creators[..n + 1] == creators;
      assert forall c :: c in creators <==> c in creators[..n] || c == creators[n];
    }
  }

  /** A history is refused for exactly the reasons there are, one creator at a time. */
  lemma RefusalsSay(stream: Stream, incoming: seq<Row>, stored: seq<Row>, r: Refusal)
    ensures r in TailOf(stream, incoming, stored).refusals <==> Misfit(stream, incoming, stored, r)
  {
    var creators := Creators(incoming, stored);
    CreatorsAre(incoming, stored);
    RefusedIs(stream, creators, incoming, stored, r);
    assert forall c :: c !in creators ==> History(stored, c) == [];
  }
}
