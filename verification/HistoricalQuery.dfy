/** Answering a consensus query from a stored observation: which quotes are used, and why one of
    the reasons for having no answer never occurs on a normalized market. */
module HistoricalQuery {
  import opened Wrappers
  import opened Sorting
  import S = OddsSnapshot
  import C = Consensus

  // ---------------------------------------------------------------- the observation

  datatype Row = Row(quote: S.Quote, playerId: Option<Text>)

  /** Instants: None when the stored text does not parse. */
  datatype Observation = Observation(status: S.Status, captured: Option<int>, eventStart: Option<int>, rows: seq<Row>)

  datatype Player = TrustedId(id: Text) | ProviderName(name: Text)

  datatype QueryLabel = ClosingCandidate | LatestPregame

  datatype Provenance = Provenance(age: int, lead: int, stage: QueryLabel)

  datatype Reason = NoObservation | MarketUnavailable | MarketEmpty | MarketInvalid
    | PlayerNotFound | ExactLineNotFound | NoValidTwoWayQuotes

  datatype Answer =
    | Available(of: Provenance, consensus: C.Result)
    | NoAnswer(reason: Reason, provenance: Option<Provenance>)

  predicate Refuses(answer: Answer, reason: Reason) {
    answer.NoAnswer? && answer.reason == reason
  }

  datatype QueryError = InvalidCutoff | InvalidLine | EmptyPlayer | NotPregame

  const CLOSING_MS := 1800000

  predicate Pregame(o: Observation, cutoff: int) {
    o.captured.Some? && o.eventStart.Some? && o.captured.value <= cutoff && o.captured.value < o.eventStart.value
  }

  function ProvenanceOf(o: Observation, cutoff: int): (p: Provenance)
    requires Pregame(o, cutoff)
    ensures p.age >= 0 && p.lead > 0
  {
    var lead := o.eventStart.value - o.captured.value;
    Provenance(cutoff - o.captured.value, lead, if lead <= CLOSING_MS then ClosingCandidate else LatestPregame)
  }

  ghost predicate Dated(o: Observation, cutoff: int, age: nat, lead: nat) {
    o.captured == Some(cutoff - age) && o.eventStart == Some(cutoff - age + lead)
  }

  /** An observation may be used exactly if it has some age at the cutoff and some time left
      until the event. */
  lemma UsableExactly(o: Observation, cutoff: int)
    ensures Pregame(o, cutoff) <==> exists age: nat, lead: nat :: Dated(o, cutoff, age, lead) && lead > 0
  {
    if Pregame(o, cutoff) {
      assert Dated(o, cutoff, cutoff - o.captured.value, o.eventStart.value - o.captured.value);
    }
  }

  function NameOf(p: Player): Text {
    match p case TrustedId(id) => id case ProviderName(name) => name
  }

  predicate IsPlayer(r: Row, p: Player) {
    match p
    case TrustedId(id) => r.playerId == Some(id)
    case ProviderName(name) => r.quote.player == name
  }

  function PlayerQuotes(rows: seq<Row>, p: Player): seq<S.Quote> {
    if rows == [] then []
    else if IsPlayer(rows[0], p) then [rows[0].quote] + PlayerQuotes(rows[1..], p)
    else PlayerQuotes(rows[1..], p)
  }

  function AtPoint(quotes: seq<S.Quote>, point: real): seq<S.Quote> {
    if quotes == [] then []
    else if quotes[0].point == point then [quotes[0]] + AtPoint(quotes[1..], point)
    else AtPoint(quotes[1..], point)
  }

  // ---------------------------------------------------------------- prices by bookmaker

  datatype Prices = Prices(over: Option<real>, under: Option<real>)

  function Quoted(prices: Prices, q: S.Quote): Prices {
    if q.direction == S.Over then prices.(over := Some(q.price)) else prices.(under := Some(q.price))
  }

  /** What the map holds for a bookmaker: on each side the last price quoted. */
  function PricesOf(quotes: seq<S.Quote>, book: Text): Prices {
    if quotes == [] then Prices(None, None)
    else
      var before := PricesOf(quotes[..|quotes| - 1], book);
      var last := quotes[|quotes| - 1];
      if last.book == book then Quoted(before, last) else before
  }

  /** The bookmakers in order of first appearance. */
  function Books(quotes: seq<S.Quote>): seq<Text> {
    if quotes == [] then []
    else
      var before := Books(quotes[..|quotes| - 1]);
      var last := quotes[|quotes| - 1].book;
      if last in before then before else before + [last]
  }

  function LineOf(quotes: seq<S.Quote>, book: Text, point: real): C.Line {
    C.Line(book, PricesOf(quotes, book).over, PricesOf(quotes, book).under, point)
  }

  function LinesOf(quotes: seq<S.Quote>, point: real): (lines: seq<C.Line>)
    ensures |lines| == |Books(quotes)|
    ensures forall i :: 0 <= i < |lines| ==> lines[i] == LineOf(quotes, Books(quotes)[i], point)
  {
    seq(|Books(quotes)|, i requires 0 <= i < |Books(quotes)| => LineOf(quotes, Books(quotes)[i], point))
  }

  lemma {:induction false} BooksAre(quotes: seq<S.Quote>)
    ensures NoRepeats(Books(quotes))
    ensures forall b :: b in Books(quotes) <==> exists i :: 0 <= i < |quotes| && quotes[i].book == b
  {
    if quotes != [] {
      var n := |quotes| - 1;
      BooksAre(quotes[..n]);
      assert forall i :: 0 <= i < n ==> quotes[..n][i] == quotes[i];
    }
  }

  lemma {:induction false} NoPrices(quotes: seq<S.Quote>, book: Text)
    requires book !in Books(quotes)
    ensures PricesOf(quotes, book) == Prices(None, None)
  {
    if quotes != [] {
      NoPrices(quotes[..|quotes| - 1], book);
    }
  }

  method GroupByBook(quotes: seq<S.Quote>, point: real) returns (lines: seq<C.Line>)
    ensures lines == LinesOf(quotes, point)
  {
    var byBook: map<Text, Prices> := map[];
    var order: seq<Text> := [];
    for i := 0 to |quotes|
      invariant order == Books(quotes[..i])
      invariant forall b :: b in byBook <==> b in order
      invariant forall b :: b in byBook ==> byBook[b] == PricesOf(quotes[..i], b)
    {
      var q := quotes[i];
      assert quotes[..i + 1][..i] == quotes[..i];
      var prices := if q.book in byBook then byBook[q.book] else Prices(None, None);
      if q.book !in byBook {
        NoPrices(quotes[..i], q.book);
        order := order + [q.book];
      }
      byBook := byBook[q.book := Quoted(prices, q)];
    }
    assert quotes[..|quotes|] == quotes;
    lines := seq(|order|, i requires 0 <= i < |order| && order[i] in byBook =>
      C.Line(order[i], byBook[order[i]].over, byBook[order[i]].under, point));
  }

  // ---------------------------------------------------------------- the query

  function StatusReason(status: S.Status): Reason
    requires status != S.Returned
  {
    match status case Unavailable => MarketUnavailable case Empty => MarketEmpty case Invalid => MarketInvalid
  }

  function AnswerFrom(o: Observation, cutoff: int, p: Player, line: real): Answer
    requires Pregame(o, cutoff)
  {
    var provenance := Some(ProvenanceOf(o, cutoff));
    if o.status != S.Returned then NoAnswer(StatusReason(o.status), provenance)
    else
      var own := PlayerQuotes(o.rows, p);
      if own == [] then NoAnswer(PlayerNotFound, provenance)
      else
        var exact := AtPoint(own, line);
        if exact == [] then NoAnswer(ExactLineNotFound, provenance)
        else
          var consensus := C.ConsensusAtLine(LinesOf(exact, line), Some(line));
          if consensus.None? then NoAnswer(NoValidTwoWayQuotes, provenance)
              else Available(provenance.value, consensus.value)
  }

  method ConsensusFromHistoricalObservation(observation: Option<Observation>, cutoff: Option<int>, p: Player,
      line: Option<real>)
    returns (r: Result<Answer, QueryError>)
    ensures r == Err(InvalidCutoff) <==> cutoff.None?
    ensures r == Err(InvalidLine) <==> cutoff.Some? && line.None?
    ensures r == Err(EmptyPlayer) <==> cutoff.Some? && line.Some? && forall i :: 0 <= i < |NameOf(p)| ==>
        NameOf(p)[i] <= 32
    ensures r == Err(NotPregame) <==>
      && cutoff.Some? && line.Some? && Named(NameOf(p)) && observation.Some?
      && (observation.value.captured.Some? && observation.value.eventStart.Some? ==>
            observation.value.captured.value > cutoff.value
                || observation.value.captured.value >= observation.value.eventStart.value)
    ensures r.Ok? ==> r.value == if observation.None? then NoAnswer(NoObservation, None)
      else AnswerFrom(observation.value, cutoff.value, p, line.value)
  {
    if cutoff.None? {
      return Err(InvalidCutoff);
    }
    if line.None? {
      return Err(InvalidLine);
    }
    if !Named(NameOf(p)) {
      return Err(EmptyPlayer);
    }
    if observation.None? {
      return Ok(NoAnswer(NoObservation, None));
    }
    var o := observation.value;
    if !Pregame(o, cutoff.value) {
      return Err(NotPregame);
    }
    var provenance := Some(ProvenanceOf(o, cutoff.value));
    if o.status != S.Returned {
      return Ok(NoAnswer(StatusReason(o.status), provenance));
    }
    var own := PlayerQuotes(o.rows, p);
    if own == [] {
      return Ok(NoAnswer(PlayerNotFound, provenance));
    }
    var exact := AtPoint(own, line.value);
    if exact == [] {
      return Ok(NoAnswer(ExactLineNotFound, provenance));
    }
    var lines := GroupByBook(exact, line.value);
    var consensus := C.ConsensusAtLine(lines, line);
    if consensus.None? {
      return Ok(NoAnswer(NoValidTwoWayQuotes, provenance));
    }
    return Ok(Available(provenance.value, consensus.value));
  }

  // ---------------------------------------------------------------- normalized observations

  /** The observation of a market the provider returned, as normalization left it: its rows hold
      the snapshot's quotes, in any order. */
  ghost predicate Normalized(o: Observation, entries: seq<S.Entry>, key: Text, s: S.Snapshot) {
    && S.IsSnapshot(entries, key, s)
    && o.status == s.status
    && |o.rows| == |s.quotes|
    && (forall i :: 0 <= i < |o.rows| ==> o.rows[i].quote in s.quotes)
    && (forall i, j :: 0 <= i < j < |o.rows| ==> o.rows[i].quote != o.rows[j].quote)
    && (forall q :: q in s.quotes ==> exists i :: 0 <= i < |o.rows| && o.rows[i].quote == q)
  }

  /** A bookmaker quotes a side of the player's line at a price. */
  predicate Offers(s: S.Snapshot, book: Text, name: Text, line: real, d: S.Direction, price: real) {
    S.Quote(book, name, line, d, price) in s.quotes
  }

  ghost predicate QuotesBothSides(s: S.Snapshot, book: Text, name: Text, line: real) {
    exists over, under :: Offers(s, book, name, line, S.Over, over) && Offers(s, book, name, line, S.Under, under)
  }

  /** The books that quote both sides, each once, with the prices they quote. */
  ghost predicate DirectLines(s: S.Snapshot, name: Text, line: real, lines: seq<C.Line>) {
    && (forall i, j :: 0 <= i < j < |lines| ==> lines[i].book != lines[j].book)
    && (forall i :: 0 <= i < |lines| ==> DirectLine(s, name, line, lines[i]))
    && (forall b :: QuotesBothSides(s, b, name, line) ==> exists i :: 0 <= i < |lines| && lines[i].book == b)
  }

  ghost predicate DirectLine(s: S.Snapshot, name: Text, line: real, l: C.Line) {
    && l.point == line && l.over.Some? && l.under.Some?
    && Offers(s, l.book, name, line, S.Over, l.over.value)
    && Offers(s, l.book, name, line, S.Under, l.under.value)
  }

  lemma {:induction false} PlayerQuotesAre(rows: seq<Row>, name: Text, q: S.Quote)
    ensures q in PlayerQuotes(rows, ProviderName(name))
        <==> q.player == name && exists i :: 0 <= i < |rows| && rows[i].quote == q
  {
    if rows != [] {
      PlayerQuotesAre(rows[1..], name, q);
      assert forall i :: 0 < i < |rows| ==> rows[i] == rows[1..][i - 1];
      assert forall i :: 0 <= i < |rows| - 1 ==> rows[1..][i] == rows[i + 1];
    }
  }

  lemma {:induction false} AtPointAre(quotes: seq<S.Quote>, point: real, q: S.Quote)
    ensures q in AtPoint(quotes, point) <==> q in quotes && q.point == point
  {
    if quotes != [] {
      AtPointAre(quotes[1..], point, q);
      assert quotes == [quotes[0]] + quotes[1..];
    }
  }

  /** The rows a query looks at are the snapshot's quotes of the player at the line. */
  lemma ExactQuotes(o: Observation, entries: seq<S.Entry>, key: Text, s: S.Snapshot, name: Text, line: real, q: S.Quote)
    requires Normalized(o, entries, key, s)
    ensures q in AtPoint(PlayerQuotes(o.rows, ProviderName(name)), line)
        <==> q in s.quotes && q.player == name && q.point == line
  {
    PlayerQuotesAre(o.rows, name, q);
    AtPointAre(PlayerQuotes(o.rows, ProviderName(name)), line, q);
  }

  function SideOf(prices: Prices, d: S.Direction): Option<real> {
    if d == S.Over then prices.over else prices.under
  }

  lemma {:induction false} PricesFound(quotes: seq<S.Quote>, book: Text, d: S.Direction)
    ensures var side := SideOf(PricesOf(quotes, book), d);
      side.Some? ==> exists q :: q in quotes && q.book == book && q.direction == d && q.price == side.value
    ensures (exists q :: q in quotes && q.book == book && q.direction == d) ==> SideOf(PricesOf(quotes, book), d).Some?
  {
    if quotes != [] {
      var n := |quotes| - 1;
      PricesFound(quotes[..n], book, d);
      assert forall q :: q in quotes <==> q in quotes[..n] || q == quotes[n];
    }
  }

  function Exact(o: Observation, name: Text, line: real): seq<S.Quote> {
    AtPoint(PlayerQuotes(o.rows, ProviderName(name)), line)
  }

  /** On a normalized market the map holds exactly the one price each side is quoted at. */
  lemma PricesAreOffers(o: Observation, entries: seq<S.Entry>, key: Text, s: S.Snapshot, name: Text, line: real,
      book: Text, d: S.Direction, p: real)
    requires Normalized(o, entries, key, s)
    ensures SideOf(PricesOf(Exact(o, name, line), book), d) == Some(p) <==> Offers(s, book, name, line, d, p)
  {
    var exact := Exact(o, name, line);
    var side := SideOf(PricesOf(exact, book), d);
    PricesFound(exact, book, d);
    if side.Some? {
      var q :| q in exact && q.book == book && q.direction == d && q.price == side.value;
      ExactQuotes(o, entries, key, s, name, line, q);
      if Offers(s, book, name, line, d, p) {
        OnePrice(entries, key, s, q, S.Quote(book, name, line, d, p));
      }
    }
    if Offers(s, book, name, line, d, p) {
      ExactQuotes(o, entries, key, s, name, line, S.Quote(book, name, line, d, p));
    }
  }

  lemma OnePrice(entries: seq<S.Entry>, key: Text, s: S.Snapshot, q: S.Quote, r: S.Quote)
    requires S.IsSnapshot(entries, key, s) && q in s.quotes && r in s.quotes
    requires S.SameLine(q, r) && q.direction == r.direction
    ensures q == r
  {
    S.QuotesArePaired(entries, key, s, q);
    assert S.SameLine(r, q);
  }

  /** A book that quotes one side of a line quotes both, each at a price above 1. */
  lemma BothSides(entries: seq<S.Entry>, key: Text, s: S.Snapshot, q: S.Quote)
    requires S.IsSnapshot(entries, key, s) && q in s.quotes
    ensures QuotesBothSides(s, q.book, q.player, q.point)
    ensures q.price > 1.0
  {
    S.QuotesArePaired(entries, key, s, q);
    var r :| r in s.quotes && S.SameLine(r, q) && r.direction == S.Other(q.direction);
    assert Offers(s, q.book, q.player, q.point, q.direction, q.price);
    assert Offers(s, q.book, q.player, q.point, r.direction, r.price);
    assert S.IsQuote(entries, q);
    var offer := S.Offer(q.book, q.direction, q.player, q.point, q.price);
    assert S.Offered(entries, offer);
    S.OfferedMeans(entries, offer);
  }

  lemma ExactBooks(o: Observation, entries: seq<S.Entry>, key: Text, s: S.Snapshot, name: Text, line: real, book: Text)
    requires Normalized(o, entries, key, s)
    ensures book in Books(Exact(o, name, line)) <==> QuotesBothSides(s, book, name, line)
  {
    var exact := Exact(o, name, line);
    BooksAre(exact);
    if book in Books(exact) {
      var i :| 0 <= i < |exact| && exact[i].book == book;
      assert exact[i] in exact;
      ExactQuotes(o, entries, key, s, name, line, exact[i]);
      BothSides(entries, key, s, exact[i]);
    }
    if QuotesBothSides(s, book, name, line) {
      var over, under :| Offers(s, book, name, line, S.Over, over) && Offers(s, book, name, line, S.Under, under);
      var q := S.Quote(book, name, line, S.Over, over);
      ExactQuotes(o, entries, key, s, name, line, q);
      var i :| 0 <= i < |exact| && exact[i] == q;
    }
  }

  lemma LinesAreDirect(o: Observation, entries: seq<S.Entry>, key: Text, s: S.Snapshot, name: Text, line: real)
    requires Normalized(o, entries, key, s)
    ensures DirectLines(s, name, line, LinesOf(Exact(o, name, line), line))
  {
    var exact := Exact(o, name, line);
    var lines := LinesOf(exact, line);
    BooksAre(exact);
    forall i | 0 <= i < |lines|
      ensures DirectLine(s, name, line, lines[i])
    {
      var book := Books(exact)[i];
      assert book in Books(exact);
      ExactBooks(o, entries, key, s, name, line, book);
      var over, under :| Offers(s, book, name, line, S.Over, over) && Offers(s, book, name, line, S.Under, under);
      PricesAreOffers(o, entries, key, s, name, line, book, S.Over, over);
      PricesAreOffers(o, entries, key, s, name, line, book, S.Under, under);
    }
    forall b | QuotesBothSides(s, b, name, line)
      ensures exists i :: 0 <= i < |lines| && lines[i].book == b
    {
      ExactBooks(o, entries, key, s, name, line, b);
      var i :| 0 <= i < |Books(exact)| && Books(exact)[i] == b;
      assert lines[i].book == b;
    }
  }

  lemma DirectLineUnique(entries: seq<S.Entry>, key: Text, s: S.Snapshot, name: Text, line: real, l: C.Line, m: C.Line)
    requires S.IsSnapshot(entries, key, s) && DirectLine(s, name, line, l) && DirectLine(s, name, line, m)
        && l.book == m.book
    ensures l == m
  {
    OnePrice(entries, key, s, S.Quote(l.book, name, line, S.Over, l.over.value),
        S.Quote(l.book, name, line, S.Over, m.over.value));
    OnePrice(entries, key, s, S.Quote(l.book, name, line, S.Under, l.under.value),
        S.Quote(l.book, name, line, S.Under, m.under.value));
  }

  lemma DirectIncluded(entries: seq<S.Entry>, key: Text, s: S.Snapshot, name: Text, line: real,
      a: seq<C.Line>, b: seq<C.Line>, l: C.Line)
    requires S.IsSnapshot(entries, key, s) && DirectLines(s, name, line, a) && DirectLines(s, name, line, b) && l in a
    ensures l in b
  {
    var i :| 0 <= i < |a| && a[i] == l;
    assert DirectLine(s, name, line, l);
    assert QuotesBothSides(s, l.book, name, line);
    var j :| 0 <= j < |b| && b[j].book == l.book;
    DirectLineUnique(entries, key, s, name, line, l, b[j]);
  }

  /** There is only one such list, up to order. */
  lemma DirectLinesAgree(entries: seq<S.Entry>, key: Text, s: S.Snapshot, name: Text, line: real, a: seq<C.Line>,
      b: seq<C.Line>)
    requires S.IsSnapshot(entries, key, s) && DirectLines(s, name, line, a) && DirectLines(s, name, line, b)
    ensures multiset(a) == multiset(b)
  {
    assert NoRepeats(a) && NoRepeats(b);
    forall l
      ensures multiset(a)[l] == multiset(b)[l]
    {
      NoRepeatsOnce(a, l);
      NoRepeatsOnce(b, l);
      if l in a {
        DirectIncluded(entries, key, s, name, line, a, b, l);
      }
      if l in b {
        DirectIncluded(entries, key, s, name, line, b, a, l);
      }
    }
  }

  lemma {:induction false} AllContribute(lines: seq<C.Line>, line: real)
    requires forall i :: 0 <= i < |lines| ==> C.Contributes(lines[i], line)
    ensures |C.Probabilities(lines, line)| == |lines|
  {
    if lines != [] {
      AllContribute(lines[1..], line);
    }
  }

  lemma DirectContributes(entries: seq<S.Entry>, key: Text, s: S.Snapshot, name: Text, line: real, lines: seq<C.Line>)
    requires S.IsSnapshot(entries, key, s) && DirectLines(s, name, line, lines)
    ensures |C.Probabilities(lines, line)| == |lines|
  {
    forall i | 0 <= i < |lines|
      ensures C.Contributes(lines[i], line)
    {
      var l := lines[i];
      assert DirectLine(s, name, line, l);
      BothSides(entries, key, s, S.Quote(l.book, name, line, S.Over, l.over.value));
      BothSides(entries, key, s, S.Quote(l.book, name, line, S.Under, l.under.value));
    }
    AllContribute(lines, line);
  }

  ghost predicate IsConsensusOf(lines: seq<C.Line>, line: real, r: C.Result) {
    C.ConsensusAtLine(lines, Some(line)) == Some(r) && r.books == |lines|
  }

  lemma AnswerIs(o: Observation, cutoff: int, name: Text, line: real)
    requires o.status == S.Returned && Pregame(o, cutoff)
    requires |C.Probabilities(LinesOf(Exact(o, name, line), line), line)| == |LinesOf(Exact(o, name, line), line)|
    ensures var answer := AnswerFrom(o, cutoff, ProviderName(name), line);
      && !Refuses(answer, NoValidTwoWayQuotes)
      && (answer.Available? <==> Exact(o, name, line) != [])
      && (answer.Available? ==> IsConsensusOf(LinesOf(Exact(o, name, line), line), line, answer.consensus))
  {
    var exact := Exact(o, name, line);
    BooksAre(exact);
    if exact != [] {
      assert exact[0].book in Books(exact);
    }
  }

  /** On a normalized market that was returned, the query is available exactly when some book
      quotes both sides of the player's line; it is then the direct consensus over those books,
      as many as there are; and for want of two-way quotes it never fails. */
  lemma AvailableExactlyWhenQuoted(o: Observation, entries: seq<S.Entry>, key: Text, s: S.Snapshot,
      cutoff: int, name: Text, line: real)
    requires Normalized(o, entries, key, s) && o.status == S.Returned && Pregame(o, cutoff)
    ensures var answer := AnswerFrom(o, cutoff, ProviderName(name), line);
      && !Refuses(answer, NoValidTwoWayQuotes)
      && (answer.Available? <==> exists b :: QuotesBothSides(s, b, name, line))
      && (answer.Available? ==> forall lines :: DirectLines(s, name, line, lines) ==>
          IsConsensusOf(lines, line, answer.consensus))
  {
    var exact := Exact(o, name, line);
    var own := LinesOf(exact, line);
    LinesAreDirect(o, entries, key, s, name, line);
    DirectContributes(entries, key, s, name, line, own);
    AnswerIs(o, cutoff, name, line);
    BooksAre(exact);
    if exact != [] {
      assert exact[0].book in Books(exact);
      ExactBooks(o, entries, key, s, name, line, exact[0].book);
    }
    if b :| QuotesBothSides(s, b, name, line) {
      ExactBooks(o, entries, key, s, name, line, b);
    }
    forall lines | DirectLines(s, name, line, lines)
      ensures C.ConsensusAtLine(lines, Some(line)) == C.ConsensusAtLine(own, Some(line)) && |lines| == |own|
    {
      DirectLinesAgree(entries, key, s, name, line, lines, own);
      C.ConsensusForgetsOrder(lines, own, Some(line));
      SameElements(lines, own);
    }
  }

  // ---------------------------------------------------------------- every answer, on any observation

  /** Some stored row is of the player: by its trusted id, or by the provider's name. */
  ghost predicate Stored(o: Observation, p: Player) {
    match p
    case TrustedId(id) => exists i :: 0 <= i < |o.rows| && o.rows[i].playerId == Some(id)
    case ProviderName(name) => exists i :: 0 <= i < |o.rows| && o.rows[i].quote.player == name
  }

  /** ... and at the line. */
  ghost predicate StoredAt(o: Observation, p: Player, line: real) {
    match p
    case TrustedId(id) =>
      exists i :: 0 <= i < |o.rows| && o.rows[i].playerId == Some(id) && o.rows[i].quote.point == line
    case ProviderName(name) =>
      exists i :: 0 <= i < |o.rows| && o.rows[i].quote.player == name && o.rows[i].quote.point == line
  }

  lemma {:induction false} OwnRows(rows: seq<Row>, p: Player, q: S.Quote)
    ensures q in PlayerQuotes(rows, p) <==> exists i :: 0 <= i < |rows| && rows[i].quote == q && IsPlayer(rows[i], p)
  {
    if rows != [] {
      OwnRows(rows[1..], p, q);
      assert forall i :: 0 < i < |rows| ==> rows[i] == rows[1..][i - 1];
      assert forall i :: 0 <= i < |rows| - 1 ==> rows[1..][i] == rows[i + 1];
    }
  }

  lemma OwnQuotes(o: Observation, p: Player)
    ensures PlayerQuotes(o.rows, p) != [] <==> Stored(o, p)
  {
    var own := PlayerQuotes(o.rows, p);
    if own != [] {
      OwnRows(o.rows, p, own[0]);
      var i :| 0 <= i < |o.rows| && o.rows[i].quote == own[0] && IsPlayer(o.rows[i], p);
    }
    if Stored(o, p) {
      var i :| 0 <= i < |o.rows| && IsPlayer(o.rows[i], p);
      OwnRows(o.rows, p, o.rows[i].quote);
    }
  }

  lemma OwnQuotesAt(o: Observation, p: Player, line: real)
    ensures AtPoint(PlayerQuotes(o.rows, p), line) != [] <==> StoredAt(o, p, line)
  {
    var own := PlayerQuotes(o.rows, p);
    var exact := AtPoint(own, line);
    if exact != [] {
      AtPointAre(own, line, exact[0]);
      OwnRows(o.rows, p, exact[0]);
      var i :| 0 <= i < |o.rows| && o.rows[i].quote == exact[0] && IsPlayer(o.rows[i], p);
    }
    if StoredAt(o, p, line) {
      var i :| 0 <= i < |o.rows| && IsPlayer(o.rows[i], p) && o.rows[i].quote.point == line;
      OwnRows(o.rows, p, o.rows[i].quote);
      AtPointAre(own, line, o.rows[i].quote);
    }
  }

  /** Each reason for having no answer is given exactly in its case, and every answer says how old
      the observation is and how long before the event it was made. */
  lemma ReasonsExactly(o: Observation, cutoff: int, p: Player, line: real)
    requires Pregame(o, cutoff)
    ensures var answer := AnswerFrom(o, cutoff, p, line);
      && (Refuses(answer, MarketUnavailable) <==> o.status == S.Unavailable)
      && (Refuses(answer, MarketEmpty) <==> o.status == S.Empty)
      && (Refuses(answer, MarketInvalid) <==> o.status == S.Invalid)
      && (Refuses(answer, PlayerNotFound) <==> o.status == S.Returned && !Stored(o, p))
      && (Refuses(answer, ExactLineNotFound) <==> o.status == S.Returned && Stored(o, p) && !StoredAt(o, p, line))
      && !Refuses(answer, NoObservation)
    ensures var answer := AnswerFrom(o, cutoff, p, line);
      && (answer.NoAnswer? ==> answer.provenance.Some?)
      && var said := if answer.Available? then answer.of else answer.provenance.value;
         && o.captured.value + said.age == cutoff
         && o.captured.value + said.lead == o.eventStart.value
         && (said.stage == ClosingCandidate <==> o.eventStart.value - o.captured.value <= 30 * 60 * 1000)
  {
    OwnQuotes(o, p);
    OwnQuotesAt(o, p, line);
  }

  /** When the rows with a trusted id are those with a provider's name, asking by either is the
      same, so all that is said of names holds of ids. */
  lemma {:induction false} TrustedIdIsTheName(o: Observation, cutoff: int, id: Text, name: Text, line: real)
    requires Pregame(o, cutoff)
    requires forall i :: 0 <= i < |o.rows| ==> (o.rows[i].playerId == Some(id) <==> o.rows[i].quote.player == name)
    ensures AnswerFrom(o, cutoff, TrustedId(id), line) == AnswerFrom(o, cutoff, ProviderName(name), line)
  {
    SameRows(o.rows, id, name);
  }

  lemma {:induction false} SameRows(rows: seq<Row>, id: Text, name: Text)
    requires forall i :: 0 <= i < |rows| ==> (rows[i].playerId == Some(id) <==> rows[i].quote.player == name)
    ensures PlayerQuotes(rows, TrustedId(id)) == PlayerQuotes(rows, ProviderName(name))
  {
    if rows != [] {
      assert forall i :: 0 <= i < |rows| - 1 ==> rows[1..][i] == rows[i + 1];
      SameRows(rows[1..], id, name);
    }
  }
}
