/** Normalizing one market of a provider's odds response: the result depends on what is offered,
    not on the order or the number of times it is said. */
module OddsSnapshot {
  import opened Wrappers
  import opened Sorting

  // ---------------------------------------------------------------- the response

  datatype Direction = Over | Under

  /** A timestamp as the provider wrote it and the instant it parses to. */
  datatype Stamp = Stamp(text: Text, instant: int)

  /** `direction`: None when the outcome is named otherwise; `player`: the trimmed description, None when
      there is none; numbers: None when missing or not finite. */
  datatype Outcome = Outcome(direction: Option<Direction>, player: Option<Text>, point: Option<real>,
      price: Option<real>)

  /** `updated`: None when the provider's timestamp is missing or does not parse. */
  datatype Market = Market(key: Text, outcomes: seq<Outcome>, updated: Option<Stamp>)

  datatype Bookmaker = Bookmaker(key: Text, markets: seq<Market>)

  predicate ValidOutcome(o: Outcome) {
    && o.player.Some? && o.player.value != []
    && o.point.Some?
    && o.price.Some? && o.price.value > 1.0
    && o.direction.Some?
  }

  // ---------------------------------------------------------------- what is offered

  datatype Offer = Offer(book: Text, direction: Direction, player: Text, point: real, price: real)

  function OfferOf(book: Text, o: Outcome): Offer
    requires ValidOutcome(o)
  {
    Offer(book, o.direction.value, o.player.value, o.point.value, o.price.value)
  }

  /** A market of the wanted kind, with the bookmaker it comes from. */
  datatype Entry = Entry(book: Text, market: Market)

  function EntriesOf(book: Text, markets: seq<Market>, key: Text): seq<Entry> {
    if markets == [] then []
    else
      var last := markets[|markets| - 1];
      EntriesOf(book, markets[..|markets| - 1], key) + if last.key == key then [Entry(book, last)] else []
  }

  function Entries(books: seq<Bookmaker>, key: Text): seq<Entry> {
    if books == [] then []
    else
      var last := books[|books| - 1];
      Entries(books[..|books| - 1], key) + if last.key == [] then [] else EntriesOf(last.key, last.markets, key)
  }

  /** Somebody offers this: a valid outcome of some entry says so. */
  ghost predicate Offered(entries: seq<Entry>, offer: Offer) {
    exists e, o {:trigger OfferedIn(entries, e, o, offer)} :: OfferedIn(entries, e, o, offer)
  }

  ghost predicate OfferedIn(entries: seq<Entry>, e: Entry, o: Outcome, offer: Offer) {
    e in entries && o in e.market.outcomes && ValidOutcome(o) && offer == OfferOf(e.book, o)
  }

  // ---------------------------------------------------------------- the snapshot

  datatype Quote = Quote(book: Text, player: Text, point: real, direction: Direction, price: real)

  datatype Status = Returned | Empty | Invalid | Unavailable

  datatype Observation = Observation(book: Text, updated: Option<Stamp>)

  /** What is hashed, in place of its hash. */
  datatype Content = Content(key: Text, quotes: seq<Quote>)

  datatype Snapshot = Snapshot(status: Status, content: Option<Content>, quotes: seq<Quote>,
      observations: seq<Observation>)

  function DirectionLe(a: Direction, b: Direction): bool {
    a == Over || b == Under
  }

  function QuoteLe(a: Quote, b: Quote): bool {
    if a.book != b.book then TextLe(a.book, b.book)
    else if a.player != b.player then TextLe(a.player, b.player)
    else if a.point != b.point then a.point < b.point
    else if a.direction != b.direction then DirectionLe(a.direction, b.direction)
    else a.price <= b.price
  }

  function ObservationLe(a: Observation, b: Observation): bool {
    TextLe(a.book, b.book)
  }

  function Other(d: Direction): Direction {
    if d == Over then Under else Over
  }

  /** The one price at which a bookmaker offers a side, if there is exactly one. */
  ghost predicate OnlyPrice(entries: seq<Entry>, book: Text, d: Direction, player: Text, point: real, price: real) {
    forall p :: Offered(entries, Offer(book, d, player, point, p)) <==> p == price
  }

  /** A quote: the bookmaker offers both sides of the line, each at exactly one price. */
  ghost predicate IsQuote(entries: seq<Entry>, q: Quote) {
    && OnlyPrice(entries, q.book, q.direction, q.player, q.point, q.price)
    && exists p :: OnlyPrice(entries, q.book, Other(q.direction), q.player, q.point, p)
  }

  ghost predicate HasOutcomes(entries: seq<Entry>) {
    exists e :: e in entries && e.market.outcomes != []
  }

  /** The latest update a bookmaker's entries report; the first one of several at that instant. */
  function LatestOf(entries: seq<Entry>, book: Text): Option<Stamp> {
    if entries == [] then None
    else
      var before := LatestOf(entries[..|entries| - 1], book);
      var last := entries[|entries| - 1];
      if last.book == book && last.market.updated.Some?
         && (before.None? || last.market.updated.value.instant > before.value.instant)
      then last.market.updated else before
  }

  ghost predicate HasEntry(entries: seq<Entry>, book: Text) {
    exists i :: 0 <= i < |entries| && entries[i].book == book
  }

  ghost predicate StatusIs(entries: seq<Entry>, status: Status) {
    match status
    case Unavailable => entries == []
    case Empty => entries != [] && !HasOutcomes(entries)
    case Invalid => HasOutcomes(entries) && forall q :: !IsQuote(entries, q)
    case Returned => HasOutcomes(entries) && exists q :: IsQuote(entries, q)
  }

  /** What a snapshot of these entries is. */
  ghost predicate IsSnapshot(entries: seq<Entry>, key: Text, s: Snapshot) {
    && StatusIs(entries, s.status)
    && Sorted(QuoteLe, s.quotes) && NoRepeats(s.quotes)
    && (forall q :: q in s.quotes <==> IsQuote(entries, q))
    && s.content == (if s.status == Returned then Some(Content(key, s.quotes)) else None)
    && Sorted(ObservationLe, s.observations) && NoRepeats(s.observations)
    && (forall o :: o in s.observations <==> HasEntry(entries, o.book) && o.updated == LatestOf(entries, o.book))
  }

  // ---------------------------------------------------------------- quotes of one bookmaker

  /** The prices of one side of one line, in the order they were first offered. */
  function PricesOf(offers: seq<Offer>, d: Direction, player: Text, point: real): seq<real> {
    if offers == [] then []
    else
      var last := offers[|offers| - 1];
      PricesOf(offers[..|offers| - 1], d, player, point)
      + if last.direction == d && last.player == player && last.point == point then [last.price] else []
  }

  datatype Line = Line(player: Text, point: real)

  datatype Pair = Pair(overs: seq<real>, unders: seq<real>)

  function PairOf(offers: seq<Offer>, line: Line): Pair {
    Pair(PricesOf(offers, Over, line.player, line.point), PricesOf(offers, Under, line.player, line.point))
  }

  function LineOf(o: Offer): Line {
    Line(o.player, o.point)
  }

  ghost predicate HasLine(offers: seq<Offer>, line: Line) {
    exists i :: 0 <= i < |offers| && LineOf(offers[i]) == line
  }

  lemma {:induction false} NoLineNoPrices(offers: seq<Offer>, line: Line)
    requires !HasLine(offers, line)
    ensures PairOf(offers, line) == Pair([], [])
  {
    if offers != [] {
      var n := |offers| - 1;
      assert forall i :: 0 <= i < n ==> offers[..n][i] == offers[i];
      assert LineOf(offers[n]) != line;
      NoLineNoPrices(offers[..n], line);
    }
  }

  function AddTo(pair: Pair, o: Offer): Pair {
    if o.direction == Over then Pair(pair.overs + [o.price], pair.unders) else Pair(pair.overs, pair.unders + [o.price])
  }

  lemma PairStep(offers: seq<Offer>, i: nat)
    requires i < |offers|
    ensures forall line ::
      PairOf(offers[..i + 1], line)
      == if line == LineOf(offers[i]) then AddTo(PairOf(offers[..i], line), offers[i]) else PairOf(offers[..i], line)
  {
    assert offers[..i + 1][..i] == offers[..i];
  }

  /** Sorts one bookmaker's offers into lines, both maps in order of first appearance. */
  method PairUp(offers: seq<Offer>) returns (pairs: map<Line, Pair>, lines: seq<Line>)
    ensures NoRepeats(lines)
    ensures forall line :: line in lines <==> HasLine(offers, line)
    ensures forall line :: line in lines ==> line in pairs && pairs[line] == PairOf(offers, line)
  {
    pairs, lines := map[], [];
    for i := 0 to |offers|
      invariant NoRepeats(lines)
      invariant forall line :: line in lines <==> HasLine(offers[..i], line)
      invariant forall line :: line in pairs <==> line in lines
      invariant forall line :: line in pairs ==> pairs[line] == PairOf(offers[..i], line)
    {
      var o := offers[i];
      var line := LineOf(o);
      OneMoreLine(offers, i);
      PairStep(offers, i);
      if line !in pairs {
        NoLineNoPrices(offers[..i], line);
        lines := lines + [line];
      }
      var pair := if line in pairs then pairs[line] else Pair([], []);
      pairs := pairs[line := AddTo(pair, o)];
    }
    assert offers[..|offers|] == offers;
  }

  lemma OneMoreLine(offers: seq<Offer>, i: nat)
    requires i < |offers|
    ensures forall line :: HasLine(offers[..i + 1], line) <==> HasLine(offers[..i], line) || line == LineOf(offers[i])
  {
    forall line
      ensures HasLine(offers[..i + 1], line) <==> HasLine(offers[..i], line) || line == LineOf(offers[i])
    {
      assert forall k :: 0 <= k < i ==> offers[..i][k] == offers[..i + 1][k];
      assert offers[..i + 1][i] == offers[i];
    }
  }

  /** A quote that one bookmaker's offers amount to. */
  ghost predicate QuoteFrom(offers: seq<Offer>, q: Quote) {
    && PricesOf(offers, q.direction, q.player, q.point) == [q.price]
    && |PricesOf(offers, Other(q.direction), q.player, q.point)| == 1
  }

  function LineQuotes(book: Text, line: Line, pair: Pair): (quotes: seq<Quote>) {
    if |pair.overs| != 1 || |pair.unders| != 1 then []
    else [Quote(book, line.player, line.point, Over, pair.overs[0]),
        Quote(book, line.player, line.point, Under, pair.unders[0])]
  }

  lemma LineQuotesAre(offers: seq<Offer>, book: Text, line: Line, q: Quote)
    ensures q in LineQuotes(book, line, PairOf(offers, line))
       <==> q.book == book && Line(q.player, q.point) == line && QuoteFrom(offers, q)
  {
  }

  method BookQuotes(book: Text, offers: seq<Offer>) returns (quotes: seq<Quote>)
    ensures NoRepeats(quotes)
    ensures forall q :: q in quotes <==> q.book == book && QuoteFrom(offers, q)
  {
    var pairs, lines := PairUp(offers);
    quotes := [];
    for i := 0 to |lines|
      invariant NoRepeats(quotes)
      invariant forall q :: q in quotes <==>
        q.book == book && Line(q.player, q.point) in lines[..i] && QuoteFrom(offers, q)
    {
      ghost var before := quotes;
      assert lines[i] in lines;
      quotes := quotes + LineQuotes(book, lines[i], pairs[lines[i]]);
      forall q
        ensures q in quotes <==> q.book == book && Line(q.player, q.point) in lines[..i + 1] && QuoteFrom(offers, q)
      {
        LineQuotesAre(offers, book, lines[i], q);
        assert Line(q.player, q.point) in lines[..i + 1]
            <==> Line(q.player, q.point) in lines[..i] || Line(q.player, q.point) == lines[i];
      }
      MoreQuotes(before, LineQuotes(book, lines[i], pairs[lines[i]]), lines, i);
    }
    forall q
      ensures q in quotes <==> q.book == book && QuoteFrom(offers, q)
    {
      if QuoteFrom(offers, q) {
        QuoteHasLine(offers, q);
      }
      assert lines[..|lines|] == lines;
    }
  }

  lemma QuoteHasLine(offers: seq<Offer>, q: Quote)
    requires QuoteFrom(offers, q)
    ensures HasLine(offers, Line(q.player, q.point))
  {
    if !HasLine(offers, Line(q.player, q.point)) {
      NoLineNoPrices(offers, Line(q.player, q.point));
    }
  }

  lemma MoreQuotes(before: seq<Quote>, more: seq<Quote>, lines: seq<Line>, i: nat)
    requires i < |lines| && NoRepeats(lines) && NoRepeats(before) && NoRepeats(more)
    requires forall q :: q in before ==> Line(q.player, q.point) in lines[..i]
    requires forall q :: q in more ==> Line(q.player, q.point) == lines[i]
    ensures NoRepeats(before + more)
  {
    assert lines[i] !in lines[..i];
    forall j, k | 0 <= j < k < |before + more|
      ensures (before + more)[j] != (before + more)[k]
    {
      if j < |before| && |before| <= k {
        assert before[j] in before && more[k - |before|] in more;
      }
    }
  }

  // ---------------------------------------------------------------- prices and offers

  ghost predicate OneBook(offers: seq<Offer>, book: Text) {
    forall i :: 0 <= i < |offers| ==> offers[i].book == book
  }

  lemma {:induction false} PricesAre(offers: seq<Offer>, book: Text, d: Direction, player: Text, point: real)
    requires OneBook(offers, book) && NoRepeats(offers)
    ensures forall p :: p in PricesOf(offers, d, player, point) <==> Offer(book, d, player, point, p) in offers
    ensures NoRepeats(PricesOf(offers, d, player, point))
  {
    if offers != [] {
      var n := |offers| - 1;
      PricesAre(offers[..n], book, d, player, point);
      assert offers == offers[..n] + [offers[n]];
      assert offers[n] !in offers[..n];
      assert offers[n].book == book;
    }
  }

  lemma FirstTwoDiffer(prices: seq<real>)
    requires NoRepeats(prices) && |prices| > 1
    ensures prices[0] != prices[1]
  {
  }

  lemma OneMember(prices: seq<real>, p: real)
    requires NoRepeats(prices)
    ensures prices == [p] <==> forall x :: x in prices <==> x == p
  {
    if forall x :: x in prices <==> x == p {
      assert p in prices;
      forall i | 0 <= i < |prices|
        ensures prices[i] == p
      {
        assert prices[i] in prices;
      }
      if |prices| > 1 {
        FirstTwoDiffer(prices);
      }
    }
    if prices == [p] {
      assert forall x :: x in [p] <==> x == p;
    }
  }

  /** One bookmaker's list of offers holds what the entries offer under its name. */
  ghost predicate Holds(offers: seq<Offer>, entries: seq<Entry>, book: Text) {
    && NoRepeats(offers)
    && OneBook(offers, book)
    && forall o: Offer {:trigger o in offers} {:trigger Offered(entries, o)} :: o.book == book ==>
        (o in offers <==> Offered(entries, o))
  }

  lemma OnlyPriceListed(offers: seq<Offer>, entries: seq<Entry>, book: Text, d: Direction, player: Text,
      point: real, p: real)
    requires Holds(offers, entries, book)
    ensures PricesOf(offers, d, player, point) == [p] <==> OnlyPrice(entries, book, d, player, point, p)
  {
    var prices := PricesOf(offers, d, player, point);
    PricesAre(offers, book, d, player, point);
    OneMember(prices, p);
    forall x
      ensures x in prices <==> Offered(entries, Offer(book, d, player, point, x))
    {
      assert Offer(book, d, player, point, x) in offers <==> Offered(entries, Offer(book, d, player, point, x));
    }
  }

  lemma QuotesListed(offers: seq<Offer>, entries: seq<Entry>, q: Quote)
    requires Holds(offers, entries, q.book)
    ensures QuoteFrom(offers, q) <==> IsQuote(entries, q)
  {
    OnlyPriceListed(offers, entries, q.book, q.direction, q.player, q.point, q.price);
    var others := PricesOf(offers, Other(q.direction), q.player, q.point);
    if |others| == 1 {
      OnlyPriceListed(offers, entries, q.book, Other(q.direction), q.player, q.point, others[0]);
    }
    if p :| OnlyPrice(entries, q.book, Other(q.direction), q.player, q.point, p) {
      OnlyPriceListed(offers, entries, q.book, Other(q.direction), q.player, q.point, p);
    }
  }

  lemma NoQuotesElsewhere(entries: seq<Entry>, q: Quote)
    requires IsQuote(entries, q)
    ensures HasEntry(entries, q.book)
  {
    OfferedHasEntry(entries, Offer(q.book, q.direction, q.player, q.point, q.price));
  }

  lemma OfferedHasEntry(entries: seq<Entry>, offer: Offer)
    requires Offered(entries, offer)
    ensures HasEntry(entries, offer.book)
  {
    var e, o :| OfferedIn(entries, e, o, offer);
    var i :| 0 <= i < |entries| && entries[i] == e;
  }

  // ---------------------------------------------------------------- gathering

  /** The maps the loops fill, with their keys in order of first appearance. */
  datatype Gathered = Gathered(offers: map<Text, seq<Offer>>, updates: map<Text, Option<Stamp>>, order: seq<Text>,
    returned: nat, outcomes: nat)

  ghost predicate GatheredFrom(g: Gathered, entries: seq<Entry>) {
    && NoRepeats(g.order)
    && (forall b :: b in g.order <==> HasEntry(entries, b))
    && (forall b :: b in g.order <==> b in g.offers)
    && (forall b :: b in g.order <==> b in g.updates)
    && (forall b :: b in g.offers ==> Holds(g.offers[b], entries, b))
    && (forall b :: b in g.updates ==> g.updates[b] == LatestOf(entries, b))
    && g.returned == |entries|
    && (g.outcomes > 0 <==> HasOutcomes(entries))
  }

  ghost predicate Says(outcomes: seq<Outcome>, book: Text, offer: Offer) {
    exists i :: 0 <= i < |outcomes| && ValidOutcome(outcomes[i]) && OfferOf(book, outcomes[i]) == offer
  }

  method AddOutcomes(known: seq<Offer>, book: Text, outcomes: seq<Outcome>) returns (offers: seq<Offer>)
    requires NoRepeats(known) && OneBook(known, book)
    ensures NoRepeats(offers) && OneBook(offers, book)
    ensures forall o :: o in offers <==> o in known || Says(outcomes, book, o)
  {
    offers := known;
    for i := 0 to |outcomes|
      invariant NoRepeats(offers) && OneBook(offers, book)
      invariant forall o :: o in offers <==> o in known || Says(outcomes[..i], book, o)
    {
      OneMoreOutcome(outcomes, book, i);
      if !ValidOutcome(outcomes[i]) {
        continue;
      }
      var offer := OfferOf(book, outcomes[i]);
      if offer !in offers {
        offers := offers + [offer];
      }
    }
    assert outcomes[..|outcomes|] == outcomes;
  }

  lemma OneMoreOutcome(outcomes: seq<Outcome>, book: Text, i: nat)
    requires i < |outcomes|
    ensures forall o ::
      Says(outcomes[..i + 1], book, o)
      <==> Says(outcomes[..i], book, o) || (ValidOutcome(outcomes[i]) && OfferOf(book, outcomes[i]) == o)
  {
    forall o
      ensures Says(outcomes[..i + 1], book, o)
        <==> Says(outcomes[..i], book, o) || (ValidOutcome(outcomes[i]) && OfferOf(book, outcomes[i]) == o)
    {
      assert forall k :: 0 <= k < i ==> outcomes[..i][k] == outcomes[..i + 1][k];
      assert outcomes[..i + 1][i] == outcomes[i];
    }
  }

  lemma OneMoreEntry(entries: seq<Entry>, e: Entry, offer: Offer)
    ensures Offered(entries + [e], offer) <==> Offered(entries, offer) || Says(e.market.outcomes, e.book, offer)
  {
    var all := entries + [e];
    if Offered(entries, offer) {
      var f, o :| OfferedIn(entries, f, o, offer);
      assert OfferedIn(all, f, o, offer);
    }
    if Says(e.market.outcomes, e.book, offer) {
      var i :| 0 <= i < |e.market.outcomes| && ValidOutcome(e.market.outcomes[i])
          && OfferOf(e.book, e.market.outcomes[i]) == offer;
      assert OfferedIn(all, e, e.market.outcomes[i], offer);
    }
    if Offered(all, offer) {
      var f, o :| OfferedIn(all, f, o, offer);
      if f in entries {
        assert OfferedIn(entries, f, o, offer);
      } else {
        var i :| 0 <= i < |e.market.outcomes| && e.market.outcomes[i] == o;
      }
    }
  }

  lemma EntryFlags(entries: seq<Entry>, e: Entry)
    ensures forall b :: HasEntry(entries + [e], b) <==> HasEntry(entries, b) || b == e.book
    ensures HasOutcomes(entries + [e]) <==> HasOutcomes(entries) || e.market.outcomes != []
  {
    var all := entries + [e];
    assert all[|entries|] == e;
    assert forall i :: 0 <= i < |entries| ==> all[i] == entries[i];
    assert forall f :: f in all <==> f in entries || f == e;
    if HasOutcomes(entries) {
      var f :| f in entries && f.market.outcomes != [];
      assert f in all;
    }
  }

  lemma HoldsMore(offers: seq<Offer>, more: seq<Offer>, entries: seq<Entry>, e: Entry)
    requires Holds(offers, entries, e.book) && NoRepeats(more) && OneBook(more, e.book)
    requires forall o :: o in more <==> o in offers || Says(e.market.outcomes, e.book, o)
    ensures Holds(more, entries + [e], e.book)
  {
    forall o: Offer | o.book == e.book
      ensures o in more <==> Offered(entries + [e], o)
    {
      OneMoreEntry(entries, e, o);
    }
  }

  lemma SaysItsBook(outcomes: seq<Outcome>, book: Text, o: Offer)
    ensures Says(outcomes, book, o) ==> o.book == book
  {
  }

  lemma HoldsStill(offers: seq<Offer>, entries: seq<Entry>, e: Entry, b: Text)
    requires Holds(offers, entries, b) && b != e.book
    ensures Holds(offers, entries + [e], b)
  {
    forall o: Offer | o.book == b
      ensures o in offers <==> Offered(entries + [e], o)
    {
      OneMoreEntry(entries, e, o);
      SaysItsBook(e.market.outcomes, e.book, o);
    }
  }

  lemma NothingHeld(entries: seq<Entry>, b: Text)
    requires !HasEntry(entries, b)
    ensures Holds([], entries, b) && LatestOf(entries, b) == None
  {
    forall o: Offer | o.book == b
      ensures !Offered(entries, o)
    {
      if Offered(entries, o) {
        OfferedHasEntry(entries, o);
      }
    }
    NoLatest(entries, b);
  }

  lemma {:induction false} NoLatest(entries: seq<Entry>, b: Text)
    requires !HasEntry(entries, b)
    ensures LatestOf(entries, b) == None
  {
    if entries != [] {
      var n := |entries| - 1;
      assert forall i :: 0 <= i < n ==> entries[..n][i] == entries[i];
      assert entries[n].book != b;
      NoLatest(entries[..n], b);
    }
  }

  function Later(current: Option<Stamp>, candidate: Option<Stamp>): Option<Stamp> {
    if candidate.Some? && (current.None? || candidate.value.instant > current.value.instant) then candidate else current
  }

  lemma LatestGrows(entries: seq<Entry>, e: Entry, b: Text)
    ensures LatestOf(entries + [e], b)
         == if b == e.book then Later(LatestOf(entries, b), e.market.updated) else LatestOf(entries, b)
  {
    assert (entries + [e])[..|entries|] == entries;
  }

  lemma OffersGrow(g: Gathered, entries: seq<Entry>, e: Entry, offers: map<Text, seq<Offer>>, own: seq<Offer>)
    requires GatheredFrom(g, entries) && Holds(own, entries + [e], e.book) && offers == g.offers[e.book := own]
    ensures forall b :: b in offers ==> Holds(offers[b], entries + [e], b)
  {
    forall b | b in offers
      ensures Holds(offers[b], entries + [e], b)
    {
      if b != e.book {
        HoldsStill(offers[b], entries, e, b);
      }
    }
  }

  lemma UpdatesGrow(g: Gathered, entries: seq<Entry>, e: Entry, updates: map<Text, Option<Stamp>>)
    requires GatheredFrom(g, entries)
    requires updates == g.updates[e.book := Later(LatestOf(entries, e.book), e.market.updated)]
    ensures forall b :: b in updates ==> updates[b] == LatestOf(entries + [e], b)
  {
    forall b | b in updates
      ensures updates[b] == LatestOf(entries + [e], b)
    {
      LatestGrows(entries, e, b);
    }
  }

  /** What the body of the inner loop does with a market of the wanted kind. */
  method AddMarket(g: Gathered, book: Text, market: Market, ghost entries: seq<Entry>) returns (next: Gathered)
    requires GatheredFrom(g, entries)
    ensures GatheredFrom(next, entries + [Entry(book, market)])
  {
    ghost var e := Entry(book, market);
    var known := if book in g.offers then g.offers[book] else [];
    var current := if book in g.updates then g.updates[book] else None;
    if book !in g.order {
      NothingHeld(entries, book);
    }
    assert Holds(known, entries, book) && current == LatestOf(entries, book);
    var offers := AddOutcomes(known, book, market.outcomes);
    var order := if book in g.order then g.order else g.order + [book];
    next := Gathered(g.offers[book := offers], g.updates[book := Later(current, market.updated)], order, g.returned + 1,
      g.outcomes + |market.outcomes|);
    HoldsMore(known, offers, entries, e);
    OffersGrow(g, entries, e, next.offers, offers);
    UpdatesGrow(g, entries, e, next.updates);
    EntryFlags(entries, e);
    OrderGrows(g.order, book);
  }

  lemma OrderGrows(order: seq<Text>, book: Text)
    requires NoRepeats(order)
    ensures var longer := if book in order then order else order + [book];
      NoRepeats(longer) && forall b :: b in longer <==> b in order || b == book
  {
  }

  // ---------------------------------------------------------------- the whole market

  method GatherBook(g: Gathered, book: Bookmaker, key: Text, ghost before: seq<Entry>) returns (next: Gathered)
    requires GatheredFrom(g, before)
    ensures GatheredFrom(next, before + EntriesOf(book.key, book.markets, key))
  {
    next := g;
    assert before + [] == before;
    for j := 0 to |book.markets|
      invariant GatheredFrom(next, before + EntriesOf(book.key, book.markets[..j], key))
    {
      ghost var entries := before + EntriesOf(book.key, book.markets[..j], key);
      OneMoreMarket(before, book, key, j);
      if book.markets[j].key == key {
        next := AddMarket(next, book.key, book.markets[j], entries);
      }
    }
    assert book.markets[..|book.markets|] == book.markets;
  }

  lemma OneMoreMarket(before: seq<Entry>, book: Bookmaker, key: Text, j: nat)
    requires j < |book.markets|
    ensures var entries := before + EntriesOf(book.key, book.markets[..j], key);
      before + EntriesOf(book.key, book.markets[..j + 1], key)
      == if book.markets[j].key == key then entries + [Entry(book.key, book.markets[j])] else entries
  {
    assert book.markets[..j + 1][..j] == book.markets[..j];
    var own := EntriesOf(book.key, book.markets[..j], key);
    assert own + [] == own;
    assert before + (own + [Entry(book.key, book.markets[j])]) == (before + own) + [Entry(book.key, book.markets[j])];
  }

  method Gather(books: seq<Bookmaker>, key: Text) returns (g: Gathered)
    ensures GatheredFrom(g, Entries(books, key))
  {
    g := Gathered(map[], map[], [], 0, 0);
    for i := 0 to |books|
      invariant GatheredFrom(g, Entries(books[..i], key))
    {
      OneMoreBook(books, key, i);
      if books[i].key != [] {
        g := GatherBook(g, books[i], key, Entries(books[..i], key));
      }
    }
    assert books[..|books|] == books;
  }

  lemma OneMoreBook(books: seq<Bookmaker>, key: Text, i: nat)
    requires i < |books|
    ensures Entries(books[..i + 1], key)
         == Entries(books[..i], key) + if books[i].key == [] then [] else EntriesOf(books[i].key, books[i].markets, key)
    ensures books[i].key == [] ==> Entries(books[..i + 1], key) == Entries(books[..i], key)
  {
    assert books[..i + 1][..i] == books[..i];
  }

  method AllQuotes(g: Gathered, ghost entries: seq<Entry>) returns (quotes: seq<Quote>)
    requires GatheredFrom(g, entries)
    ensures NoRepeats(quotes)
    ensures forall q :: q in quotes <==> IsQuote(entries, q)
  {
    quotes := [];
    for i := 0 to |g.order|
      invariant NoRepeats(quotes)
      invariant forall q :: q in quotes <==> q.book in g.order[..i] && IsQuote(entries, q)
    {
      var book := g.order[i];
      assert book in g.order;
      var more := BookQuotes(book, g.offers[book]);
      forall q
        ensures q in more <==> q.book == book && IsQuote(entries, q)
      {
        if q.book == book {
          QuotesListed(g.offers[book], entries, q);
        }
      }
      JoinQuotes(quotes, more, g.order, i);
      quotes := quotes + more;
      assert g.order[..i + 1] == g.order[..i] + [book];
    }
    forall q
      ensures q in quotes <==> IsQuote(entries, q)
    {
      if IsQuote(entries, q) {
        NoQuotesElsewhere(entries, q);
      }
      assert g.order[..|g.order|] == g.order;
    }
  }

  lemma JoinQuotes(before: seq<Quote>, more: seq<Quote>, order: seq<Text>, i: nat)
    requires i < |order| && NoRepeats(order) && NoRepeats(before) && NoRepeats(more)
    requires forall q :: q in before ==> q.book in order[..i]
    requires forall q :: q in more ==> q.book == order[i]
    ensures NoRepeats(before + more)
  {
    assert order[i] !in order[..i];
    forall j, k | 0 <= j < k < |before + more|
      ensures (before + more)[j] != (before + more)[k]
    {
      if j < |before| && |before| <= k {
        assert before[j] in before && more[k - |before|] in more;
      }
    }
  }

  lemma QuoteOrder()
    ensures TotalPreorder(QuoteLe)
    ensures forall x, y :: QuoteLe(x, y) && QuoteLe(y, x) ==> x == y
  {
    TextOrder();
  }

  lemma SortQuotes(quotes: seq<Quote>)
    requires NoRepeats(quotes)
    ensures Sorted(QuoteLe, SortBy(QuoteLe, quotes)) && NoRepeats(SortBy(QuoteLe, quotes))
    ensures forall q :: q in SortBy(QuoteLe, quotes) <==> q in quotes
  {
    QuoteOrder();
    SortKeeps(QuoteLe, quotes);
    SortSorts(QuoteLe, quotes);
    SameElements(quotes, SortBy(QuoteLe, quotes));
    NoRepeatsAnyOrder(quotes, SortBy(QuoteLe, quotes));
  }

  function Listed(g: Gathered): seq<Observation>
    requires forall b :: b in g.order ==> b in g.updates
  {
    seq(|g.order|, i requires 0 <= i < |g.order| => assert g.order[i] in g.order; Observation(g.order[i],
        g.updates[g.order[i]]))
  }

  lemma ListedOnce(g: Gathered, entries: seq<Entry>)
    requires GatheredFrom(g, entries)
    ensures NoRepeats(Listed(g))
  {
  }

  lemma ListedAre(g: Gathered, entries: seq<Entry>, o: Observation)
    requires GatheredFrom(g, entries)
    ensures o in Listed(g) <==> HasEntry(entries, o.book) && o.updated == LatestOf(entries, o.book)
  {
    var listed := Listed(g);
    if o in listed {
      var i :| 0 <= i < |listed| && listed[i] == o;
      assert g.order[i] in g.order;
    }
    if HasEntry(entries, o.book) && o.updated == LatestOf(entries, o.book) {
      assert o.book in g.order;
      var i :| 0 <= i < |g.order| && g.order[i] == o.book;
      assert listed[i] == o;
    }
  }

  lemma SortObservations(g: Gathered, entries: seq<Entry>)
    requires GatheredFrom(g, entries)
    ensures var observations := SortBy(ObservationLe, Listed(g));
      && Sorted(ObservationLe, observations) && NoRepeats(observations)
      && forall o :: o in observations <==> HasEntry(entries, o.book) && o.updated == LatestOf(entries, o.book)
  {
    var listed := Listed(g);
    TextOrder();
    SortKeeps(ObservationLe, listed);
    SortSorts(ObservationLe, listed);
    SameElements(listed, SortBy(ObservationLe, listed));
    ListedOnce(g, entries);
    NoRepeatsAnyOrder(listed, SortBy(ObservationLe, listed));
    forall o
      ensures o in listed <==> HasEntry(entries, o.book) && o.updated == LatestOf(entries, o.book)
    {
      ListedAre(g, entries, o);
    }
  }

  lemma NoOutcomesNoQuotes(entries: seq<Entry>, q: Quote)
    requires IsQuote(entries, q)
    ensures HasOutcomes(entries)
  {
    var offer := Offer(q.book, q.direction, q.player, q.point, q.price);
    assert Offered(entries, offer);
    var e, o :| OfferedIn(entries, e, o, offer);
    assert e.market.outcomes != [];
  }

  method NormalizeMarketSnapshot(books: seq<Bookmaker>, key: Text) returns (s: Snapshot)
    ensures IsSnapshot(Entries(books, key), key, s)
  {
    ghost var entries := Entries(books, key);
    var g := Gather(books, key);
    var observations := SortBy(ObservationLe, Listed(g));
    SortObservations(g, entries);
    forall q | IsQuote(entries, q)
      ensures HasOutcomes(entries)
    {
      NoOutcomesNoQuotes(entries, q);
    }
    if g.returned == 0 {
      return Snapshot(Unavailable, None, [], observations);
    }
    if g.outcomes == 0 {
      return Snapshot(Empty, None, [], observations);
    }
    var quotes := AllQuotes(g, entries);
    SortQuotes(quotes);
    quotes := SortBy(QuoteLe, quotes);
    if quotes == [] {
      return Snapshot(Invalid, None, quotes, observations);
    }
    assert quotes[0] in quotes;
    return Snapshot(Returned, Some(Content(key, quotes)), quotes, observations);
  }

  // ---------------------------------------------------------------- canonical

  /** Lists of entries that agree on what makes a snapshot. */
  ghost predicate Agree(a: seq<Entry>, b: seq<Entry>) {
    && (forall o :: Offered(a, o) <==> Offered(b, o))
    && (HasOutcomes(a) <==> HasOutcomes(b))
    && (forall book :: HasEntry(a, book) <==> HasEntry(b, book))
  }

  lemma SameQuotes(a: seq<Entry>, b: seq<Entry>, q: Quote)
    requires Agree(a, b)
    ensures IsQuote(a, q) <==> IsQuote(b, q)
  {
    forall d: Direction, p
      ensures OnlyPrice(a, q.book, d, q.player, q.point, p) <==> OnlyPrice(b, q.book, d, q.player, q.point, p)
    {
    }
  }

  lemma NoEntries(a: seq<Entry>)
    ensures a == [] <==> forall book :: !HasEntry(a, book)
  {
    if a != [] {
      assert HasEntry(a, a[0].book);
    }
  }

  /** Status, quotes and hashed content depend only on what is said. */
  lemma SnapshotIsCanonical(a: seq<Entry>, b: seq<Entry>, key: Text, s: Snapshot, t: Snapshot)
    requires Agree(a, b) && IsSnapshot(a, key, s) && IsSnapshot(b, key, t)
    ensures s.status == t.status && s.quotes == t.quotes && s.content == t.content
  {
    forall q
      ensures IsQuote(a, q) <==> IsQuote(b, q)
    {
      SameQuotes(a, b, q);
    }
    NoEntries(a);
    NoEntries(b);
    QuoteOrder();
    SameMembersSameList(QuoteLe, s.quotes, t.quotes);
  }

  predicate SameLine(q: Quote, r: Quote) {
    q.book == r.book && q.player == r.player && q.point == r.point
  }

  /** Quotes come in pairs: exactly one over and one under for each bookmaker, player and point. */
  lemma QuotesArePaired(entries: seq<Entry>, key: Text, s: Snapshot, q: Quote)
    requires IsSnapshot(entries, key, s) && q in s.quotes
    ensures forall r :: r in s.quotes && SameLine(r, q) && r.direction == q.direction ==> r == q
    ensures exists r :: r in s.quotes && SameLine(r, q) && r.direction == Other(q.direction)
  {
    forall r | r in s.quotes && SameLine(r, q) && r.direction == q.direction
      ensures r == q
    {
      assert Offered(entries, Offer(q.book, q.direction, q.player, q.point, q.price));
    }
    var p :| OnlyPrice(entries, q.book, Other(q.direction), q.player, q.point, p);
    var r := Quote(q.book, q.player, q.point, Other(q.direction), p);
    assert OnlyPrice(entries, r.book, Other(r.direction), r.player, r.point, q.price);
    assert IsQuote(entries, r);
  }

  // ---------------------------------------------------------------- what a response says

  /** What can be said of a market: that it is there, that it has an outcome, or that it was
      updated at an instant. */
  datatype Fact = Lists | Quotes(o: Outcome) | Updates(instant: int)

  predicate MarketSays(m: Market, f: Fact) {
    match f
    case Lists => true
    case Quotes(o) => o in m.outcomes
    case Updates(t) => m.updated.Some? && m.updated.value.instant == t
  }

  ghost predicate BookSays(x: Bookmaker, key: Text, f: Fact) {
    exists m :: m in x.markets && m.key == key && MarketSays(m, f)
  }

  ghost predicate ResponseSays(books: seq<Bookmaker>, book: Text, key: Text, f: Fact) {
    book != [] && exists x :: x in books && x.key == book && BookSays(x, key, f)
  }

  /** The same response, said differently: in another order, in other pieces, or repeatedly. */
  ghost predicate SameResponse(a: seq<Bookmaker>, b: seq<Bookmaker>) {
    forall book, key, f :: ResponseSays(a, book, key, f) <==> ResponseSays(b, book, key, f)
  }

  ghost predicate EntriesSay(entries: seq<Entry>, book: Text, f: Fact) {
    exists e :: e in entries && e.book == book && MarketSays(e.market, f)
  }

  lemma {:induction false} EntriesOfAre(book: Text, markets: seq<Market>, key: Text, e: Entry)
    ensures e in EntriesOf(book, markets, key) <==> e.book == book && e.market in markets && e.market.key == key
  {
    if markets != [] {
      var n := |markets| - 1;
      EntriesOfAre(book, markets[..n], key, e);
      assert markets == markets[..n] + [markets[n]];
    }
  }

  ghost predicate EntryIn(books: seq<Bookmaker>, key: Text, e: Entry) {
    e.book != [] && e.market.key == key && exists x :: x in books && x.key == e.book && e.market in x.markets
  }

  /** The same of one bookmaker. */
  predicate EntryOf(x: Bookmaker, key: Text, e: Entry) {
    x.key != [] && e.book == x.key && e.market in x.markets && e.market.key == key
  }

  lemma EntryInMore(books: seq<Bookmaker>, key: Text, e: Entry)
    requires books != []
    ensures EntryIn(books, key, e) <==> EntryIn(books[..|books| - 1], key, e) || EntryOf(books[|books| - 1], key, e)
  {
    var n := |books| - 1;
    assert forall x :: x in books <==> x in books[..n] || x == books[n];
  }

  lemma MoreEntries(books: seq<Bookmaker>, key: Text, e: Entry)
    requires books != []
    ensures e in Entries(books, key) <==> e in Entries(books[..|books| - 1], key) || EntryOf(books[|books| - 1], key, e)
  {
    var last := books[|books| - 1];
    EntriesOfAre(last.key, last.markets, key, e);
  }

  lemma {:induction false} EntriesAre(books: seq<Bookmaker>, key: Text, e: Entry)
    ensures e in Entries(books, key) <==> EntryIn(books, key, e)
  {
    if books != [] {
      EntriesAre(books[..|books| - 1], key, e);
      EntryInMore(books, key, e);
      MoreEntries(books, key, e);
    }
  }

  /** The entries say what the response says of the wanted market. */
  lemma EntriesSayIt(books: seq<Bookmaker>, key: Text, book: Text, f: Fact)
    ensures EntriesSay(Entries(books, key), book, f) <==> ResponseSays(books, book, key, f)
  {
    if EntriesSay(Entries(books, key), book, f) {
      var e :| e in Entries(books, key) && e.book == book && MarketSays(e.market, f);
      EntriesAre(books, key, e);
      var x :| x in books && x.key == e.book && e.market in x.markets;
      assert BookSays(x, key, f);
    }
    if ResponseSays(books, book, key, f) {
      var x :| x in books && x.key == book && BookSays(x, key, f);
      var m :| m in x.markets && m.key == key && MarketSays(m, f);
      EntriesAre(books, key, Entry(book, m));
      assert Entry(book, m) in Entries(books, key);
    }
  }

  ghost predicate SayTheSame(a: seq<Entry>, b: seq<Entry>) {
    forall book, f :: EntriesSay(a, book, f) <==> EntriesSay(b, book, f)
  }

  function OutcomeOf(offer: Offer): Outcome {
    Outcome(Some(offer.direction), Some(offer.player), Some(offer.point), Some(offer.price))
  }

  lemma OfferedMeans(entries: seq<Entry>, offer: Offer)
    ensures Offered(entries, offer) <==>
      ValidOutcome(OutcomeOf(offer)) && EntriesSay(entries, offer.book, Quotes(OutcomeOf(offer)))
  {
    var out := OutcomeOf(offer);
    if Offered(entries, offer) {
      var e, o :| OfferedIn(entries, e, o, offer);
      assert o == out;
      assert e in entries && e.book == offer.book && MarketSays(e.market, Quotes(out));
    }
    if ValidOutcome(out) && EntriesSay(entries, offer.book, Quotes(out)) {
      var e :| e in entries && e.book == offer.book && MarketSays(e.market, Quotes(out));
      assert OfferedIn(entries, e, out, offer);
    }
  }

  lemma HasEntryMeans(entries: seq<Entry>, book: Text)
    ensures HasEntry(entries, book) <==> EntriesSay(entries, book, Lists)
  {
    if HasEntry(entries, book) {
      var i :| 0 <= i < |entries| && entries[i].book == book;
      assert entries[i] in entries && MarketSays(entries[i].market, Lists);
    }
    if EntriesSay(entries, book, Lists) {
      var e :| e in entries && e.book == book && MarketSays(e.market, Lists);
      var i :| 0 <= i < |entries| && entries[i] == e;
    }
  }

  lemma OutcomesAgree(a: seq<Entry>, b: seq<Entry>)
    requires SayTheSame(a, b) && HasOutcomes(a)
    ensures HasOutcomes(b)
  {
    var e :| e in a && e.market.outcomes != [];
    var f := Quotes(e.market.outcomes[0]);
    assert MarketSays(e.market, f);
    assert EntriesSay(a, e.book, f);
    assert EntriesSay(b, e.book, f);
    var g :| g in b && g.book == e.book && MarketSays(g.market, f);
    assert g.market.outcomes != [];
  }

  lemma SayingTheSameAgrees(a: seq<Entry>, b: seq<Entry>)
    requires SayTheSame(a, b)
    ensures Agree(a, b)
  {
    forall o
      ensures Offered(a, o) <==> Offered(b, o)
    {
      OfferedMeans(a, o);
      OfferedMeans(b, o);
    }
    forall book
      ensures HasEntry(a, book) <==> HasEntry(b, book)
    {
      HasEntryMeans(a, book);
      HasEntryMeans(b, book);
    }
    if HasOutcomes(a) {
      OutcomesAgree(a, b);
    }
    if HasOutcomes(b) {
      OutcomesAgree(b, a);
    }
  }

  // ---------------------------------------------------------------- update instants

  ghost predicate Reports(entries: seq<Entry>, book: Text, instant: int) {
    EntriesSay(entries, book, Updates(instant))
  }

  lemma OneMoreReport(entries: seq<Entry>, e: Entry, book: Text, t: int)
    ensures Reports(entries + [e], book, t)
        <==> Reports(entries, book, t) || (e.book == book && MarketSays(e.market, Updates(t)))
  {
    assert forall x :: x in entries + [e] <==> x in entries || x == e;
  }

  lemma {:induction false} LatestIsReported(entries: seq<Entry>, book: Text)
    ensures LatestOf(entries, book).Some? ==> Reports(entries, book, LatestOf(entries, book).value.instant)
  {
    if entries != [] {
      var n := |entries| - 1;
      LatestIsReported(entries[..n], book);
      assert entries == entries[..n] + [entries[n]];
      if LatestOf(entries, book).Some? {
        OneMoreReport(entries[..n], entries[n], book, LatestOf(entries, book).value.instant);
      }
    }
  }

  /** The kept update is the latest reported one. */
  lemma {:induction false} LatestIsLatest(entries: seq<Entry>, book: Text, t: int)
    requires Reports(entries, book, t)
    ensures LatestOf(entries, book).Some? && t <= LatestOf(entries, book).value.instant
  {
    if entries != [] {
      var n := |entries| - 1;
      assert entries == entries[..n] + [entries[n]];
      OneMoreReport(entries[..n], entries[n], book, t);
      if Reports(entries[..n], book, t) {
        LatestIsLatest(entries[..n], book, t);
      }
    }
  }

  function InstantOf(updated: Option<Stamp>): Option<int> {
    if updated.Some? then Some(updated.value.instant) else None
  }

  lemma SameLatestInstant(a: seq<Entry>, b: seq<Entry>, book: Text)
    requires SayTheSame(a, b)
    ensures InstantOf(LatestOf(a, book)) == InstantOf(LatestOf(b, book))
  {
    if LatestOf(a, book).Some? {
      LatestIsReported(a, book);
      LatestIsLatest(b, book, LatestOf(a, book).value.instant);
    }
    if LatestOf(b, book).Some? {
      LatestIsReported(b, book);
      LatestIsLatest(a, book, LatestOf(b, book).value.instant);
    }
  }

  function BooksOf(observations: seq<Observation>): (books: seq<Text>)
    ensures |books| == |observations| && forall i :: 0 <= i < |books| ==> books[i] == observations[i].book
  {
    seq(|observations|, i requires 0 <= i < |observations| => observations[i].book)
  }

  lemma ObservedBooks(entries: seq<Entry>, key: Text, s: Snapshot)
    requires IsSnapshot(entries, key, s)
    ensures Sorted(TextLe, BooksOf(s.observations)) && NoRepeats(BooksOf(s.observations))
    ensures forall book :: book in BooksOf(s.observations) <==> HasEntry(entries, book)
  {
    var books := BooksOf(s.observations);
    forall i, j | 0 <= i < j < |books|
      ensures TextLe(books[i], books[j]) && books[i] != books[j]
    {
      assert ObservationLe(s.observations[i], s.observations[j]);
      assert s.observations[i] in s.observations && s.observations[j] in s.observations;
    }
    forall book
      ensures book in books <==> HasEntry(entries, book)
    {
      if book in books {
        var i :| 0 <= i < |books| && books[i] == book;
        assert s.observations[i] in s.observations;
      }
      if HasEntry(entries, book) {
        var o := Observation(book, LatestOf(entries, book));
        assert o in s.observations;
        var i :| 0 <= i < |s.observations| && s.observations[i] == o;
        assert books[i] == book;
      }
    }
  }

  /** Observations that agree on the bookmakers and on the instants of their updates. */
  ghost predicate SameInstants(s: seq<Observation>, t: seq<Observation>) {
    |s| == |t| && forall i :: 0 <= i < |s| ==>
        s[i].book == t[i].book && InstantOf(s[i].updated) == InstantOf(t[i].updated)
  }

  lemma ObservationsAgree(a: seq<Entry>, b: seq<Entry>, key: Text, s: Snapshot, t: Snapshot)
    requires IsSnapshot(a, key, s) && IsSnapshot(b, key, t) && SayTheSame(a, b)
    ensures SameInstants(s.observations, t.observations)
  {
    SayingTheSameAgrees(a, b);
    ObservedBooks(a, key, s);
    ObservedBooks(b, key, t);
    TextOrder();
    SameMembersSameList(TextLe, BooksOf(s.observations), BooksOf(t.observations));
    forall i | 0 <= i < |s.observations|
      ensures s.observations[i].book == t.observations[i].book
      ensures InstantOf(s.observations[i].updated) == InstantOf(t.observations[i].updated)
    {
      var book := BooksOf(s.observations)[i];
      assert book == BooksOf(t.observations)[i];
      assert s.observations[i] in s.observations && t.observations[i] in t.observations;
      SameLatestInstant(a, b, book);
    }
  }

  /** A response said differently has the same snapshot, up to how update instants are spelled. */
  lemma RewritingChangesNothing(a: seq<Bookmaker>, b: seq<Bookmaker>, key: Text, s: Snapshot, t: Snapshot)
    requires SameResponse(a, b) && IsSnapshot(Entries(a, key), key, s) && IsSnapshot(Entries(b, key), key, t)
    ensures s.status == t.status && s.quotes == t.quotes && s.content == t.content
    ensures SameInstants(s.observations, t.observations)
  {
    var x, y := Entries(a, key), Entries(b, key);
    forall book, f
      ensures EntriesSay(x, book, f) <==> EntriesSay(y, book, f)
    {
      EntriesSayIt(a, key, book, f);
      EntriesSayIt(b, key, book, f);
    }
    SayingTheSameAgrees(x, y);
    SnapshotIsCanonical(x, y, key, s, t);
    ObservationsAgree(x, y, key, s, t);
  }

  // ---------------------------------------------------------------- ways to say it differently

  ghost predicate SameBook(x: Bookmaker, y: Bookmaker) {
    x.key == y.key && forall key, f :: BookSays(x, key, f) <==> BookSays(y, key, f)
  }

  lemma OneWay(a: seq<Bookmaker>, i: nat, y: Bookmaker, book: Text, key: Text, f: Fact)
    requires i < |a| && SameBook(a[i], y) && ResponseSays(a, book, key, f)
    ensures ResponseSays(a[i := y], book, key, f)
  {
    var x :| x in a && x.key == book && BookSays(x, key, f);
    var j :| 0 <= j < |a| && a[j] == x;
    assert a[i := y][j] in a[i := y];
    assert BookSays(a[i := y][j], key, f);
  }

  /** Rewriting one bookmaker rewrites the response. */
  lemma RewritingABook(a: seq<Bookmaker>, i: nat, y: Bookmaker)
    requires i < |a| && SameBook(a[i], y)
    ensures SameResponse(a, a[i := y])
  {
    var b := a[i := y];
    forall book, key, f
      ensures ResponseSays(a, book, key, f) <==> ResponseSays(b, book, key, f)
    {
      if ResponseSays(a, book, key, f) {
        OneWay(a, i, y, book, key, f);
      }
      if ResponseSays(b, book, key, f) {
        OneWay(b, i, a[i], book, key, f);
        assert b[i := a[i]] == a;
      }
    }
  }

  lemma PermutingBookmakers(a: seq<Bookmaker>, b: seq<Bookmaker>)
    requires multiset(a) == multiset(b)
    ensures SameResponse(a, b)
  {
    SameElements(a, b);
  }

  lemma PermutingMarkets(x: Bookmaker, markets: seq<Market>)
    requires multiset(x.markets) == multiset(markets)
    ensures SameBook(x, x.(markets := markets))
  {
    SameElements(x.markets, markets);
  }

  lemma OutcomesOneWay(x: Bookmaker, y: Bookmaker, j: nat, key: Text, f: Fact)
    requires |x.markets| == |y.markets| && j < |x.markets| && forall k :: 0 <= k < |x.markets| && k != j ==>
        x.markets[k] == y.markets[k]
    requires x.markets[j].key == y.markets[j].key && x.markets[j].updated == y.markets[j].updated
    requires forall o :: o in x.markets[j].outcomes ==> o in y.markets[j].outcomes
    requires BookSays(x, key, f)
    ensures BookSays(y, key, f)
  {
    var m :| m in x.markets && m.key == key && MarketSays(m, f);
    var k :| 0 <= k < |x.markets| && x.markets[k] == m;
    assert y.markets[k] in y.markets && MarketSays(y.markets[k], f);
  }

  /** Outcomes in another order, some of them repeated or said once less. */
  lemma RewritingOutcomes(x: Bookmaker, j: nat, outcomes: seq<Outcome>)
    requires j < |x.markets| && forall o :: o in outcomes <==> o in x.markets[j].outcomes
    ensures SameBook(x, x.(markets := x.markets[j := x.markets[j].(outcomes := outcomes)]))
  {
    var y := x.(markets := x.markets[j := x.markets[j].(outcomes := outcomes)]);
    forall key, f
      ensures BookSays(x, key, f) <==> BookSays(y, key, f)
    {
      if BookSays(x, key, f) {
        OutcomesOneWay(x, y, j, key, f);
      }
      if BookSays(y, key, f) {
        OutcomesOneWay(y, x, j, key, f);
      }
    }
  }

  // ---------------------------------------------------------------- how the kept update is spelled

  predicate Updating(e: Entry, book: Text) {
    e.book == book && e.market.updated.Some?
  }

  /** The entry reports the latest instant that any of the bookmaker's entries reports. */
  predicate IsLatest(entries: seq<Entry>, book: Text, e: Entry) {
    && Updating(e, book)
    && forall f :: f in entries && Updating(f, book) ==>
        f.market.updated.value.instant <= e.market.updated.value.instant
  }

  /** All reports of the bookmaker's latest instant spell it alike. */
  predicate SpelledAlike(entries: seq<Entry>, book: Text) {
    forall e, f :: e in entries && f in entries && IsLatest(entries, book, e) && IsLatest(entries, book, f) ==>
      e.market.updated == f.market.updated
  }

  lemma LatestOfMore(entries: seq<Entry>, e: Entry, book: Text)
    ensures LatestOf(entries + [e], book) ==
      var before := LatestOf(entries, book);
      if Updating(e, book) && (before.None? || e.market.updated.value.instant > before.value.instant)
      then e.market.updated else before
  {
    assert (entries + [e])[..|entries|] == entries;
  }

  lemma LatestOfOne(e: Entry)
    ensures LatestOf([e], e.book) == e.market.updated
  {
    LatestOfMore([], e, e.book);
    assert [] + [e] == [e];
  }

  /** What is kept was said by an entry that reports the latest instant. */
  lemma {:induction false} KeptWasSaid(entries: seq<Entry>, book: Text) returns (said: Option<Entry>)
    ensures said.None? ==> LatestOf(entries, book).None? && forall e :: e in entries ==> !Updating(e, book)
    ensures said.Some? ==>
      said.value in entries && IsLatest(entries, book, said.value)
          && LatestOf(entries, book) == said.value.market.updated
  {
    if entries == [] {
      said := None;
    } else {
      var before, e := entries[..|entries| - 1], entries[|entries| - 1];
      assert entries == before + [e];
      LatestOfMore(before, e, book);
      said := KeptWasSaid(before, book);
      if LatestOf(entries, book) != LatestOf(before, book) {
        said := Some(e);
      }
    }
  }

  /** Of several entries that report the latest instant the first one is kept. */
  lemma {:induction false} FirstIsKept(e: Entry, rest: seq<Entry>, book: Text)
    requires IsLatest([e] + rest, book, e)
    ensures LatestOf([e] + rest, book) == e.market.updated
  {
    if rest == [] {
      assert [e] + rest == [e];
      LatestOfOne(e);
    } else {
      var before, f := rest[..|rest| - 1], rest[|rest| - 1];
      assert [e] + rest == ([e] + before) + [f];
      FirstIsKept(e, before, book);
      LatestOfMore([e] + before, f, book);
      assert f in [e] + rest;
    }
  }

  lemma PutFirst(entries: seq<Entry>, e: Entry) returns (rest: seq<Entry>)
    requires e in entries
    ensures multiset([e] + rest) == multiset(entries)
  {
    var i :| 0 <= i < |entries| && entries[i] == e;
    rest := entries[..i] + entries[i + 1..];
    assert entries == entries[..i] + [e] + entries[i + 1..];
  }

  /** In some order of the entries the kept update is spelled as this one. */
  lemma CanBeKept(entries: seq<Entry>, book: Text, e: Entry) returns (other: seq<Entry>)
    requires e in entries && IsLatest(entries, book, e)
    ensures multiset(other) == multiset(entries) && LatestOf(other, book) == e.market.updated
  {
    var rest := PutFirst(entries, e);
    other := [e] + rest;
    SameElements(other, entries);
    FirstIsKept(e, rest, book);
  }

  lemma AlikeKeepsText(entries: seq<Entry>, other: seq<Entry>, book: Text)
    requires SpelledAlike(entries, book) && multiset(other) == multiset(entries)
    ensures LatestOf(other, book) == LatestOf(entries, book)
  {
    SameElements(other, entries);
    var e := KeptWasSaid(entries, book);
    var f := KeptWasSaid(other, book);
  }

  /** The kept update is the same text in every order of the entries exactly if all reports of
      the bookmaker's latest instant spell it alike. */
  lemma UpdateTextExactly(entries: seq<Entry>, book: Text)
    ensures (forall other :: multiset(other) == multiset(entries) ==> LatestOf(other, book) == LatestOf(entries, book))
       <==> SpelledAlike(entries, book)
  {
    if SpelledAlike(entries, book) {
      forall other | multiset(other) == multiset(entries)
        ensures LatestOf(other, book) == LatestOf(entries, book)
      {
        AlikeKeepsText(entries, other, book);
      }
    } else {
      var e, f :| e in entries && f in entries && IsLatest(entries, book, e) && IsLatest(entries, book, f)
        && e.market.updated != f.market.updated;
      var x := CanBeKept(entries, book, e);
      var y := CanBeKept(entries, book, f);
    }
  }

  /** Two responses list the same markets of the same bookmakers, in any order. */
  ghost predicate Rearranged(a: seq<Bookmaker>, b: seq<Bookmaker>, key: Text) {
    multiset(Entries(a, key)) == multiset(Entries(b, key))
  }

  /** A response that lists exactly these entries, in this order. */
  function AsResponse(entries: seq<Entry>): seq<Bookmaker> {
    if entries == [] then []
    else
      var last := entries[|entries| - 1];
      AsResponse(entries[..|entries| - 1]) + [Bookmaker(last.book, [last.market])]
  }

  lemma {:induction false} EntriesOfResponse(entries: seq<Entry>, key: Text)
    requires forall e :: e in entries ==> e.book != [] && e.market.key == key
    ensures Entries(AsResponse(entries), key) == entries
  {
    if entries != [] {
      var before, last := entries[..|entries| - 1], entries[|entries| - 1];
      EntriesOfResponse(before, key);
      var books := AsResponse(entries);
      assert books[..|books| - 1] == AsResponse(before);
      assert [last.market][..0] == [];
      assert EntriesOf(last.book, [last.market], key) == [last];
      assert entries == before + [last];
    }
  }

  lemma PermutedAgree(a: seq<Entry>, b: seq<Entry>)
    requires multiset(a) == multiset(b)
    ensures Agree(a, b)
  {
    SameElements(a, b);
    forall book, f
      ensures EntriesSay(a, book, f) <==> EntriesSay(b, book, f)
    {
    }
    SayingTheSameAgrees(a, b);
  }

  lemma StatusCarriesOver(a: seq<Entry>, b: seq<Entry>, status: Status)
    requires Agree(a, b) && StatusIs(a, status)
    ensures StatusIs(b, status)
  {
    forall q
      ensures IsQuote(a, q) <==> IsQuote(b, q)
    {
      SameQuotes(a, b, q);
    }
    NoEntries(a);
    NoEntries(b);
  }

  lemma SnapshotCarriesOver(a: seq<Entry>, b: seq<Entry>, key: Text, s: Snapshot)
    requires Agree(a, b) && IsSnapshot(a, key, s)
    requires forall book :: LatestOf(a, book) == LatestOf(b, book)
    ensures IsSnapshot(b, key, s)
  {
    StatusCarriesOver(a, b, s.status);
    forall q
      ensures q in s.quotes <==> IsQuote(b, q)
    {
      SameQuotes(a, b, q);
    }
  }

  /** Any order of a response's entries is the order of a rearrangement of it. */
  lemma SomeRearrangement(a: seq<Bookmaker>, key: Text, other: seq<Entry>) returns (b: seq<Bookmaker>)
    requires multiset(other) == multiset(Entries(a, key))
    ensures Rearranged(a, b, key) && Entries(b, key) == other
  {
    SameElements(other, Entries(a, key));
    forall e: Entry | e in other
      ensures e.book != [] && e.market.key == key
    {
      EntriesAre(a, key, e);
    }
    b := AsResponse(other);
    EntriesOfResponse(other, key);
  }

  lemma OtherTextOtherSnapshot(x: seq<Entry>, y: seq<Entry>, key: Text, s: Snapshot, book: Text)
    requires IsSnapshot(x, key, s) && HasEntry(x, book) && LatestOf(x, book) != LatestOf(y, book)
    ensures !IsSnapshot(y, key, s)
  {
    assert Observation(book, LatestOf(x, book)) in s.observations;
  }

  lemma UnlikeTextsChange(a: seq<Bookmaker>, key: Text, s: Snapshot, book: Text) returns (b: seq<Bookmaker>)
    requires IsSnapshot(Entries(a, key), key, s) && !SpelledAlike(Entries(a, key), book)
    ensures Rearranged(a, b, key) && !IsSnapshot(Entries(b, key), key, s)
  {
    var entries := Entries(a, key);
    UpdateTextExactly(entries, book);
    var other :| multiset(other) == multiset(entries) && LatestOf(other, book) != LatestOf(entries, book);
    b := SomeRearrangement(a, key, other);
    var e :| e in entries && Updating(e, book);
    var i :| 0 <= i < |entries| && entries[i] == e;
    OtherTextOtherSnapshot(entries, other, key, s, book);
  }

  /** The snapshot of a response is, to the letter, that of every rearrangement of it exactly if
      each bookmaker spells its latest update instant alike wherever it reports it. */
  lemma SnapshotForgetsOrderExactly(a: seq<Bookmaker>, key: Text, s: Snapshot)
    requires IsSnapshot(Entries(a, key), key, s)
    ensures (forall b :: Rearranged(a, b, key) ==> IsSnapshot(Entries(b, key), key, s))
       <==> (forall book :: SpelledAlike(Entries(a, key), book))
  {
    var entries := Entries(a, key);
    if forall book :: SpelledAlike(entries, book) {
      forall b | Rearranged(a, b, key)
        ensures IsSnapshot(Entries(b, key), key, s)
      {
        PermutedAgree(entries, Entries(b, key));
        forall book
          ensures LatestOf(entries, book) == LatestOf(Entries(b, key), book)
        {
          AlikeKeepsText(entries, Entries(b, key), book);
        }
        SnapshotCarriesOver(entries, Entries(b, key), key, s);
      }
    } else {
      var book :| !SpelledAlike(entries, book);
      var b := UnlikeTextsChange(a, key, s, book);
    }
  }

  // ---------------------------------------------------------------- two spellings of one instant

  function TextOf(chars: string): Text {
    seq(|chars|, i requires 0 <= i < |chars| => chars[i] as int)
  }

  const ZULU: Stamp := Stamp(TextOf("1970-01-01T00:00:00Z"), 0)
  const OFFSET: Stamp := Stamp(TextOf("1970-01-01T00:00:00+00:00"), 0)

  /** One bookmaker lists an empty market twice. */
  function TwiceListed(book: Text, key: Text, first: Stamp, second: Stamp): Bookmaker {
    Bookmaker(book, [Market(key, [], Some(first)), Market(key, [], Some(second))])
  }

  lemma TwiceListedEntries(book: Text, key: Text, first: Stamp, second: Stamp)
    requires book != []
    ensures Entries([TwiceListed(book, key, first, second)], key) ==
      [Entry(book, Market(key, [], Some(first))), Entry(book, Market(key, [], Some(second)))]
  {
    var x := TwiceListed(book, key, first, second);
    assert [x][..0] == [];
    assert x.markets[..1] == [x.markets[0]] && x.markets[..1][..0] == [];
    assert EntriesOf(book, x.markets[..1], key) == [Entry(book, x.markets[0])];
  }

  lemma TwiceListedSnapshot(book: Text, key: Text, first: Stamp, second: Stamp)
    requires book != [] && first.instant == second.instant
    ensures IsSnapshot(Entries([TwiceListed(book, key, first, second)], key), key,
                       Snapshot(Empty, None, [], [Observation(book, Some(first))]))
  {
    var e, f := Entry(book, Market(key, [], Some(first))), Entry(book, Market(key, [], Some(second)));
    var entries := Entries([TwiceListed(book, key, first, second)], key);
    TwiceListedEntries(book, key, first, second);
    assert entries == [e] + [f];
    LatestOfOne(e);
    LatestOfMore([e], f, book);
    assert entries[0] == e;
    forall o
      ensures !Offered(entries, o)
    {
    }
    forall q
      ensures !IsQuote(entries, q)
    {
      assert !Offered(entries, Offer(q.book, q.direction, q.player, q.point, q.price));
    }
    forall b | HasEntry(entries, b)
      ensures b == book
    {
    }
  }

  lemma EitherWaySame(book: Text, key: Text, first: Stamp, second: Stamp)
    ensures SameResponse([TwiceListed(book, key, first, second)], [TwiceListed(book, key, second, first)])
  {
    var x, y := TwiceListed(book, key, first, second), TwiceListed(book, key, second, first);
    assert x.markets == [x.markets[0]] + [x.markets[1]] && y.markets == [x.markets[1]] + [x.markets[0]];
    PermutingMarkets(x, y.markets);
    RewritingABook([x], 0, y);
    assert [x][0 := y] == [y];
  }

  lemma EitherWayRound(book: Text, key: Text, first: Stamp, second: Stamp)
    requires book != []
    ensures Rearranged([TwiceListed(book, key, first, second)], [TwiceListed(book, key, second, first)], key)
  {
    TwiceListedEntries(book, key, first, second);
    TwiceListedEntries(book, key, second, first);
  }

  /** Two orders of one response whose snapshots spell the same update instant differently. */
  lemma UpdateTextDependsOnOrder(book: Text, key: Text)
      returns (a: seq<Bookmaker>, b: seq<Bookmaker>, s: Snapshot, t: Snapshot)
    requires book != []
    ensures SameResponse(a, b) && Rearranged(a, b, key)
    ensures IsSnapshot(Entries(a, key), key, s) && IsSnapshot(Entries(b, key), key, t)
    ensures s.observations == [Observation(book, Some(ZULU))] && t.observations == [Observation(book, Some(OFFSET))]
    ensures ZULU.instant == OFFSET.instant && ZULU.text != OFFSET.text
  {
    a, b := [TwiceListed(book, key, ZULU, OFFSET)], [TwiceListed(book, key, OFFSET, ZULU)];
    s := Snapshot(Empty, None, [], [Observation(book, Some(ZULU))]);
    t := Snapshot(Empty, None, [], [Observation(book, Some(OFFSET))]);
    EitherWaySame(book, key, ZULU, OFFSET);
    EitherWayRound(book, key, ZULU, OFFSET);
    TwiceListedSnapshot(book, key, ZULU, OFFSET);
    TwiceListedSnapshot(book, key, OFFSET, ZULU);
    assert |ZULU.text| != |OFFSET.text|;
  }

  // ---------------------------------------------------------------- the snapshot, said of the response

  /** A bookmaker with a key lists a market of the wanted kind. */
  ghost predicate ListsMarket(books: seq<Bookmaker>, key: Text, x: Bookmaker, m: Market) {
    x in books && x.key != [] && m in x.markets && m.key == key
  }

  /** ... in which it offers a side of a named player's line at a price above 1. */
  ghost predicate Prices(books: seq<Bookmaker>, key: Text, book: Text, d: Direction, player: Text, point: real,
      price: real) {
    && player != [] && price > 1.0
    && exists x, m :: ListsMarket(books, key, x, m) && x.key == book
                      && Outcome(Some(d), Some(player), Some(point), Some(price)) in m.outcomes
  }

  lemma OfferedIsPriced(books: seq<Bookmaker>, key: Text, offer: Offer)
    ensures Offered(Entries(books, key), offer) <==>
      Prices(books, key, offer.book, offer.direction, offer.player, offer.point, offer.price)
  {
    var f := Quotes(OutcomeOf(offer));
    OfferedMeans(Entries(books, key), offer);
    EntriesSayIt(books, key, offer.book, f);
    if ResponseSays(books, offer.book, key, f) {
      var x :| x in books && x.key == offer.book && BookSays(x, key, f);
      var m :| m in x.markets && m.key == key && MarketSays(m, f);
      assert ListsMarket(books, key, x, m);
    }
    if x, m :| ListsMarket(books, key, x, m) && x.key == offer.book && OutcomeOf(offer) in m.outcomes {
      assert MarketSays(m, f) && BookSays(x, key, f);
    }
  }

  ghost predicate OnlyPriced(books: seq<Bookmaker>, key: Text, book: Text, d: Direction, player: Text, point: real,
      price: real) {
    forall p :: Prices(books, key, book, d, player, point, p) <==> p == price
  }

  lemma OnlyPricedMeans(books: seq<Bookmaker>, key: Text, book: Text, d: Direction, player: Text, point: real,
      price: real)
    ensures OnlyPrice(Entries(books, key), book, d, player, point, price)
        <==> OnlyPriced(books, key, book, d, player, point, price)
  {
    forall p
      ensures Offered(Entries(books, key), Offer(book, d, player, point, p))
          <==> Prices(books, key, book, d, player, point, p)
    {
      OfferedIsPriced(books, key, Offer(book, d, player, point, p));
    }
  }

  /** The quotes are exactly the sides that a bookmaker offers at one price only, and whose other
      side it offers at one price only. */
  lemma QuotesExactly(books: seq<Bookmaker>, key: Text, s: Snapshot, q: Quote)
    requires IsSnapshot(Entries(books, key), key, s)
    ensures var opposite := if q.direction == Over then Under else Over;
      q in s.quotes <==>
        && OnlyPriced(books, key, q.book, q.direction, q.player, q.point, q.price)
        && exists other :: OnlyPriced(books, key, q.book, opposite, q.player, q.point, other)
  {
    var opposite := if q.direction == Over then Under else Over;
    OnlyPricedMeans(books, key, q.book, q.direction, q.player, q.point, q.price);
    forall other
      ensures OnlyPrice(Entries(books, key), q.book, opposite, q.player, q.point, other) <==>
        OnlyPriced(books, key, q.book, opposite, q.player, q.point, other)
    {
      OnlyPricedMeans(books, key, q.book, opposite, q.player, q.point, other);
    }
    assert opposite == Other(q.direction);
    if q in s.quotes {
      var other :| OnlyPrice(Entries(books, key), q.book, opposite, q.player, q.point, other);
      assert OnlyPriced(books, key, q.book, opposite, q.player, q.point, other);
    }
    if OnlyPriced(books, key, q.book, q.direction, q.player, q.point, q.price) {
      if other :| OnlyPriced(books, key, q.book, opposite, q.player, q.point, other) {
        assert OnlyPrice(Entries(books, key), q.book, opposite, q.player, q.point, other);
        assert IsQuote(Entries(books, key), q);
      }
    }
  }

  /** The status: nothing listed, nothing offered, nothing usable, or something quoted; and only what
      is quoted is hashed, under the market's key. */
  lemma StatusExactly(books: seq<Bookmaker>, key: Text, s: Snapshot)
    requires IsSnapshot(Entries(books, key), key, s)
    ensures s.status == Unavailable <==> forall x, m :: !ListsMarket(books, key, x, m)
    ensures s.status == Unavailable || s.status == Empty
        <==> forall x, m :: ListsMarket(books, key, x, m) ==> m.outcomes == []
    ensures s.status == Returned <==> s.quotes != []
    ensures s.content.Some? <==> s.quotes != []
    ensures s.content.Some? ==> s.content.value == Content(key, s.quotes)
  {
    var entries := Entries(books, key);
    forall x, m | ListsMarket(books, key, x, m)
      ensures Entry(x.key, m) in entries
    {
      EntriesAre(books, key, Entry(x.key, m));
    }
    if entries != [] {
      var x := ListedSomewhere(books, key, entries[0]);
    }
    if e :| e in entries && e.market.outcomes != [] {
      var x := ListedSomewhere(books, key, e);
    }
    if HasOutcomes(entries) {
      var e :| e in entries && e.market.outcomes != [];
    }
    QuotesNeedOutcomes(entries, key, s);
  }

  lemma ListedSomewhere(books: seq<Bookmaker>, key: Text, e: Entry) returns (x: Bookmaker)
    requires e in Entries(books, key)
    ensures ListsMarket(books, key, x, e.market) && x.key == e.book
  {
    EntriesAre(books, key, e);
    x :| x in books && x.key == e.book && e.market in x.markets;
  }

  lemma QuotesNeedOutcomes(entries: seq<Entry>, key: Text, s: Snapshot)
    requires IsSnapshot(entries, key, s)
    ensures s.quotes != [] <==> s.status == Returned
  {
    if s.quotes != [] {
      var q := s.quotes[0];
      assert q in s.quotes;
      assert Offered(entries, Offer(q.book, q.direction, q.player, q.point, q.price));
      var e, o :| OfferedIn(entries, e, o, Offer(q.book, q.direction, q.player, q.point, q.price));
      assert HasOutcomes(entries);
    }
    if s.status == Returned {
      var q :| IsQuote(entries, q);
      assert q in s.quotes;
    }
  }

  /** The order of the quotes: by bookmaker, then by player, then by line, over before under. */
  lemma QuotesInOrder(entries: seq<Entry>, key: Text, s: Snapshot, i: nat, j: nat)
    requires IsSnapshot(entries, key, s) && i < j < |s.quotes|
    ensures var q, r := s.quotes[i], s.quotes[j];
      && TextLe(q.book, r.book)
      && (q.book == r.book ==> TextLe(q.player, r.player))
      && (q.book == r.book && q.player == r.player ==> q.point <= r.point)
      && (q.book == r.book && q.player == r.player && q.point == r.point ==>
          q.direction == Over && r.direction == Under)
  {
    var q, r := s.quotes[i], s.quotes[j];
    assert QuoteLe(q, r) && q in s.quotes && r in s.quotes;
    TextOrder();
    if SameLine(q, r) {
      QuotesArePaired(entries, key, s, q);
      assert SameLine(r, q);
    }
  }

  ghost predicate Lister(books: seq<Bookmaker>, key: Text, book: Text) {
    exists x, m :: ListsMarket(books, key, x, m) && x.key == book
  }

  lemma ListersHaveEntries(books: seq<Bookmaker>, key: Text, book: Text)
    ensures HasEntry(Entries(books, key), book) <==> Lister(books, key, book)
  {
    var entries := Entries(books, key);
    if HasEntry(entries, book) {
      var i :| 0 <= i < |entries| && entries[i].book == book;
      var x := ListedSomewhere(books, key, entries[i]);
    }
    if x, m :| ListsMarket(books, key, x, m) && x.key == book {
      EntriesAre(books, key, Entry(book, m));
      var i :| 0 <= i < |entries| && entries[i] == Entry(book, m);
    }
  }

  /** Every bookmaker that lists the market is observed once, in order of their keys, with the
      latest update it reports. */
  lemma ObservedExactly(books: seq<Bookmaker>, key: Text, s: Snapshot)
    requires IsSnapshot(Entries(books, key), key, s)
    ensures forall i, j :: 0 <= i < j < |s.observations| ==>
      TextLe(s.observations[i].book, s.observations[j].book) && s.observations[i].book != s.observations[j].book
    ensures forall book :: book in BooksOf(s.observations) <==> Lister(books, key, book)
    ensures forall o :: o in s.observations ==> o.updated == LatestOf(Entries(books, key), o.book)
  {
    ObservedBooks(Entries(books, key), key, s);
    var names := BooksOf(s.observations);
    forall i, j | 0 <= i < j < |s.observations|
      ensures TextLe(s.observations[i].book, s.observations[j].book) && s.observations[i].book != s.observations[j].book
    {
      assert TextLe(names[i], names[j]);
    }
    forall book
      ensures book in names <==> Lister(books, key, book)
    {
      ListersHaveEntries(books, key, book);
    }
  }
}
