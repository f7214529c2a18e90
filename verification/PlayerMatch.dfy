/** Choosing the roster candidate a provider's player name stands for.

    Names come as the tokens that normalization leaves; scores are reals.  What matters is that
    the answer does not depend on the order in which the candidates are listed. */
module PlayerMatch {
  import opened Wrappers
  import opened Sorting
  import J = JaroWinkler

  type Token = Text

  // ---------------------------------------------------------------- tokens

  const JR: Token := [106, 114]
  const SR: Token := [115, 114]
  const II: Token := [105, 105]
  const III: Token := [105, 105, 105]
  const IV: Token := [105, 118]
  const V: Token := [118]

  predicate IsSuffix(t: Token) {
    t == JR || t == SR || t == II || t == III || t == IV || t == V
  }

  /** The tokens without the suffixes at their end; the first token stays whatever it is. */
  function WithoutSuffixes(tokens: seq<Token>): (r: seq<Token>)
    ensures r <= tokens
    ensures tokens != [] ==> r != []
    ensures |r| > 1 ==> !IsSuffix(r[|r| - 1])
    ensures forall i :: |r| <= i < |tokens| ==> IsSuffix(tokens[i])
  {
    if |tokens| > 1 && IsSuffix(tokens[|tokens| - 1]) then WithoutSuffixes(tokens[..|tokens| - 1]) else tokens
  }

  /** The suffixes are these six. */
  lemma SuffixesAre(t: Token)
    ensures IsSuffix(t) <==> exists chars :: chars in ["jr", "sr", "ii", "iii", "iv", "v"] && t == TokenOf(chars)
  {
    var suffixes := ["jr", "sr", "ii", "iii", "iv", "v"];
    assert TokenOf(suffixes[0]) == JR && TokenOf(suffixes[1]) == SR && TokenOf(suffixes[2]) == II;
    assert TokenOf(suffixes[3]) == III && TokenOf(suffixes[4]) == IV && TokenOf(suffixes[5]) == V;
    assert suffixes[0] in suffixes && suffixes[1] in suffixes && suffixes[2] in suffixes;
    assert suffixes[3] in suffixes && suffixes[4] in suffixes && suffixes[5] in suffixes;
  }

  function TokenOf(chars: string): Token {
    seq(|chars|, i requires 0 <= i < |chars| => chars[i] as int)
  }

  method NameTokens(raw: seq<Token>) returns (tokens: seq<Token>)
    ensures tokens == WithoutSuffixes(raw)
  {
    tokens := raw;
    while |tokens| > 1 && IsSuffix(tokens[|tokens| - 1])
      invariant WithoutSuffixes(tokens) == WithoutSuffixes(raw)
    {
      tokens := tokens[..|tokens| - 1];
    }
  }

  function Compact(tokens: seq<Token>): Token {
    if tokens == [] then [] else tokens[0] + Compact(tokens[1..])
  }

  /** An initial and the last name of the alias. */
  predicate InitialAndLastName(query: seq<Token>, alias: seq<Token>) {
    && |query| == 2 && |query[0]| == 1
    && |alias| >= 2 && |alias[0]| >= 1
    && query[0][0] == alias[0][0]
    && query[1] == alias[|alias| - 1]
  }

  /** It takes exactly an initial and a last name for an alias that begins with the one and ends
      with the other, whatever lies between. */
  lemma InitialsExactly(query: seq<Token>, alias: seq<Token>)
    ensures InitialAndLastName(query, alias) <==>
      exists first, between, last :: first != [] && alias == [first] + between + [last] && query == [[first[0]], last]
  {
    if InitialAndLastName(query, alias) {
      var n := |alias| - 1;
      assert alias == [alias[0]] + alias[1..n] + [alias[n]];
      assert query[0] == [alias[0][0]] && query == [query[0], query[1]];
    }
  }

  lemma {:induction false} CompactJoins(a: seq<Token>, b: seq<Token>)
    ensures Compact(a + b) == Compact(a) + Compact(b)
  {
    if a == [] {
      assert a + b == b;
    } else {
      CompactJoins(a[1..], b);
      assert (a + b)[1..] == a[1..] + b && (a + b)[0] == a[0];
      Joined(a[0], Compact(a[1..]), Compact(b));
    }
  }

  lemma Joined(a: Token, b: Token, c: Token)
    ensures (a + b) + c == a + (b + c)
  {
  }

  lemma CompactOne(t: Token)
    ensures Compact([t]) == t
  {
    assert [t][1..] == [];
  }

  function AliasScore(oddsName: seq<Token>, alias: seq<Token>): real {
    var query, other := WithoutSuffixes(oddsName), WithoutSuffixes(alias);
    if Compact(query) == Compact(other) then 1.0
    else if InitialAndLastName(query, other) then 0.96
    else J.Similarity(Compact(query), Compact(other))
  }

  lemma AliasScoreInside(oddsName: seq<Token>, alias: seq<Token>)
    ensures 0.0 <= AliasScore(oddsName, alias) <= 1.0
    ensures AliasScore(oddsName, alias) == 1.0 <==>
      Compact(WithoutSuffixes(oddsName)) == Compact(WithoutSuffixes(alias))
  {
    J.SimilarityInside(Compact(WithoutSuffixes(oddsName)), Compact(WithoutSuffixes(alias)));
  }

  /** An initial with the alias's last name scores 0.96, suffixes or not, unless it is the whole
      name; every other alias scores the similarity of the compacted names. */
  lemma AliasScoreIs(oddsName: seq<Token>, alias: seq<Token>)
    ensures var query, other := WithoutSuffixes(oddsName), WithoutSuffixes(alias);
      var initials := exists first, between, last ::
        first != [] && other == [first] + between + [last] && query == [[first[0]], last];
      && (initials && Compact(query) != Compact(other) ==> AliasScore(oddsName, alias) == 0.96)
      && (!initials || Compact(query) == Compact(other) ==>
            AliasScore(oddsName, alias) == J.Similarity(Compact(query), Compact(other)))
  {
    InitialsExactly(WithoutSuffixes(oddsName), WithoutSuffixes(alias));
    J.SimilarityInside(Compact(WithoutSuffixes(oddsName)), Compact(WithoutSuffixes(alias)));
  }

  method ScoreAlias(oddsName: seq<Token>, alias: seq<Token>) returns (score: real)
    ensures score == AliasScore(oddsName, alias)
  {
    var query := NameTokens(oddsName);
    var other := NameTokens(alias);
    if Compact(query) == Compact(other) {
      return 1.0;
    }
    if InitialAndLastName(query, other) {
      return 0.96;
    }
    score := J.JaroWinklerScore(Compact(query), Compact(other));
  }

  // ---------------------------------------------------------------- candidates

  datatype Candidate = Candidate(playerId: seq<nat>, fullName: seq<Token>, firstName: seq<Token>, lastName: seq<Token>,
    footballName: Option<seq<Token>>, team: seq<nat>, position: seq<nat>)

  /** The names a candidate goes by.  An alias that repeats another cannot raise a score, so the
      repetition need not be dropped. */
  function AliasesFor(c: Candidate): (aliases: seq<seq<Token>>)
    ensures aliases != []
    ensures forall alias :: alias in aliases <==>
      || alias == c.fullName || alias == c.firstName + c.lastName
      || (c.footballName.Some? && alias == c.footballName.value + c.lastName)
    ensures aliases[0] == c.fullName
  {
    [c.fullName, c.firstName + c.lastName]
    + if c.footballName.Some? then [c.footballName.value + c.lastName] else []
  }

  datatype Scored = Scored(candidate: Candidate, confidence: real, alias: seq<Token>)

  /** The best of the first aliases, the earliest of equals. */
  function BestOf(score: seq<Token> -> real, c: Candidate, aliases: seq<seq<Token>>): Scored {
    if aliases == [] then Scored(c, 0.0, c.fullName)
    else
      var best := BestOf(score, c, aliases[..|aliases| - 1]);
      var last := aliases[|aliases| - 1];
      if score(last) > best.confidence then Scored(c, score(last), last) else best
  }

  function Scorer(oddsName: seq<Token>): seq<Token> -> real {
    alias => AliasScore(oddsName, alias)
  }

  function ScoreOf(oddsName: seq<Token>, c: Candidate): Scored {
    BestOf(Scorer(oddsName), c, AliasesFor(c))
  }

  /** The alias named is the first that scores so much. */
  ghost predicate FirstBest(score: seq<Token> -> real, aliases: seq<seq<Token>>, best: Scored) {
    best.confidence > 0.0 ==> exists k :: 0 <= k < |aliases| && IsFirst(score, aliases, best, k)
  }

  ghost predicate IsFirst(score: seq<Token> -> real, aliases: seq<seq<Token>>, best: Scored, k: int)
    requires 0 <= k < |aliases|
  {
    best.alias == aliases[k] && forall i :: 0 <= i < k ==> score(aliases[i]) < best.confidence
  }

  lemma {:induction false} BestIsBest(score: seq<Token> -> real, c: Candidate, aliases: seq<seq<Token>>)
    requires forall alias :: 0.0 <= score(alias) <= 1.0
    ensures var best := BestOf(score, c, aliases);
      && best.candidate == c && 0.0 <= best.confidence <= 1.0
      && (forall i :: 0 <= i < |aliases| ==> score(aliases[i]) <= best.confidence)
      && (best.confidence > 0.0 ==> best.alias in aliases && best.confidence == score(best.alias))
      && (best.confidence == 0.0 ==> best.alias == c.fullName)
      && FirstBest(score, aliases, best)
  {
    if aliases != [] {
      var n := |aliases| - 1;
      BestIsBest(score, c, aliases[..n]);
      assert aliases == aliases[..n] + [aliases[n]];
      assert forall i :: 0 <= i < n ==> aliases[..n][i] == aliases[i];
      var before, best := BestOf(score, c, aliases[..n]), BestOf(score, c, aliases);
      if best != before {
        assert IsFirst(score, aliases, best, n);
      } else if best.confidence > 0.0 {
        var k :| 0 <= k < n && IsFirst(score, aliases[..n], before, k);
        assert IsFirst(score, aliases, best, k);
      }
    }
  }

  /** A candidate's confidence is the best score of any of its aliases, and
      is the score of the alias it names. */
  lemma ConfidenceIsBest(oddsName: seq<Token>, c: Candidate)
    ensures ScoreOf(oddsName, c).candidate == c && 0.0 <= ScoreOf(oddsName, c).confidence <= 1.0
    ensures forall i :: 0 <= i < |AliasesFor(c)| ==>
        AliasScore(oddsName, AliasesFor(c)[i]) <= ScoreOf(oddsName, c).confidence
    ensures ScoreOf(oddsName, c).confidence > 0.0 ==>
      ScoreOf(oddsName, c).alias in AliasesFor(c)
      && ScoreOf(oddsName, c).confidence == AliasScore(oddsName, ScoreOf(oddsName, c).alias)
  {
    forall alias
      ensures 0.0 <= Scorer(oddsName)(alias) <= 1.0
    {
      AliasScoreInside(oddsName, alias);
    }
    BestIsBest(Scorer(oddsName), c, AliasesFor(c));
    assert forall i :: 0 <= i < |AliasesFor(c)| ==>
        Scorer(oddsName)(AliasesFor(c)[i]) == AliasScore(oddsName, AliasesFor(c)[i]);
  }

  method ScoreCandidate(oddsName: seq<Token>, c: Candidate) returns (s: Scored)
    ensures s == ScoreOf(oddsName, c)
  {
    var aliases := AliasesFor(c);
    var confidence, matchedAlias := 0.0, c.fullName;
    for i := 0 to |aliases|
      invariant Scored(c, confidence, matchedAlias) == BestOf(Scorer(oddsName), c, aliases[..i])
    {
      assert aliases[..i + 1][..i] == aliases[..i];
      var score := ScoreAlias(oddsName, aliases[i]);
      if score > confidence {
        confidence, matchedAlias := score, aliases[i];
      }
    }
    assert aliases[..|aliases|] == aliases;
    return Scored(c, confidence, matchedAlias);
  }

  // ---------------------------------------------------------------- the match

  const MIN_CONFIDENCE := 0.94
  const MIN_RUNNER_UP_GAP := 0.04

  predicate Compatible(c: Candidate, teams: set<seq<nat>>, positions: set<seq<nat>>) {
    c.team in teams && c.position in positions
  }

  function Fits(teams: set<seq<nat>>, positions: set<seq<nat>>): Candidate -> bool {
    c => Compatible(c, teams, positions)
  }

  function CandidateScorer(oddsName: seq<Token>): Candidate -> Scored {
    c => ScoreOf(oddsName, c)
  }

  function CompatibleScores(oddsName: seq<Token>, teams: set<seq<nat>>, positions: set<seq<nat>>,
      candidates: seq<Candidate>): seq<Scored>
  {
    FilterMap(Fits(teams, positions), CandidateScorer(oddsName), candidates)
  }

  function MoreConfident(a: Scored, b: Scored): bool {
    a.confidence >= b.confidence
  }

  /** `positions`: the roster positions the market allows, None for a market that names none. */
  method MatchPlayerIdentity(oddsName: seq<Token>, positions: Option<set<seq<nat>>>, teams: set<seq<nat>>,
      candidates: seq<Candidate>) returns (r: Option<Scored>)
    ensures positions.None? ==> r.None?
    ensures positions.Some? ==> r == Clear(CompatibleScores(oddsName, teams, positions.value, candidates))
  {
    if positions.None? {
      return None;
    }
    var scored: seq<Scored> := [];
    for i := 0 to |candidates|
      invariant scored == CompatibleScores(oddsName, teams, positions.value, candidates[..i])
    {
      assert candidates[..i + 1][..i] == candidates[..i];
      if Compatible(candidates[i], teams, positions.value) {
        var s := ScoreCandidate(oddsName, candidates[i]);
        scored := scored + [s];
      }
    }
    assert candidates[..|candidates|] == candidates;
    var sorted := SortBy(MoreConfident, scored);
    if |sorted| == 0 || sorted[0].confidence < MIN_CONFIDENCE {
      return None;
    }
    if |sorted| > 1 && sorted[0].confidence - sorted[1].confidence < MIN_RUNNER_UP_GAP {
      return None;
    }
    return Some(sorted[0]);
  }

  /** The most confident score, if it is confident enough and clear of the runner-up. */
  function Clear(scored: seq<Scored>): Option<Scored> {
    var sorted := SortBy(MoreConfident, scored);
    if |sorted| == 0 || sorted[0].confidence < MIN_CONFIDENCE then None
    else if |sorted| > 1 && sorted[0].confidence - sorted[1].confidence < MIN_RUNNER_UP_GAP then None
    else Some(sorted[0])
  }

  /** One score is confident and beats every other by the gap. */
  ghost predicate Beats(scored: seq<Scored>, k: int) {
    && 0 <= k < |scored|
    && scored[k].confidence >= MIN_CONFIDENCE
    && forall j :: 0 <= j < |scored| && j != k ==> scored[k].confidence - scored[j].confidence >= MIN_RUNNER_UP_GAP
  }

  lemma ByConfidence(scored: seq<Scored>)
    ensures Sorted(MoreConfident, SortBy(MoreConfident, scored))
    ensures multiset(SortBy(MoreConfident, scored)) == multiset(scored)
    ensures |SortBy(MoreConfident, scored)| == |scored|
  {
    SortKeeps(MoreConfident, scored);
    SortSorts(MoreConfident, scored);
  }

  /** Beating all others does not depend on where the others stand. */
  lemma BeatsAnyOrder(a: seq<Scored>, b: seq<Scored>, k: nat) returns (m: nat)
    requires multiset(a) == multiset(b) && Beats(a, k)
    ensures Beats(b, m) && b[m] == a[k]
  {
    SameElements(a, b);
    assert a[k] in b;
    m :| 0 <= m < |b| && b[m] == a[k];
    forall j | 0 <= j < |b| && j != m
      ensures b[m].confidence - b[j].confidence >= MIN_RUNNER_UP_GAP
    {
      assert b[j] in a;
      var i :| 0 <= i < |a| && a[i] == b[j];
      if i == k {
        OnlyOnce(a, k);
        TwiceAt(b, m, j);
      }
    }
  }

  lemma OnlyOnce(a: seq<Scored>, k: nat)
    requires Beats(a, k)
    ensures multiset(a)[a[k]] == 1
  {
    assert a == a[..k] + [a[k]] + a[k + 1..];
    assert a[k] !in a[..k] && a[k] !in a[k + 1..];
  }

  lemma TwiceAt(b: seq<Scored>, m: nat, j: nat)
    requires m < |b| && j < |b| && m != j && b[m] == b[j]
    ensures multiset(b)[b[m]] >= 2
  {
    if m < j {
      TwiceInside(b, m, j);
    } else {
      TwiceInside(b, j, m);
    }
  }

  lemma FirstBeats(sorted: seq<Scored>)
    requires Sorted(MoreConfident, sorted)
    ensures (|sorted| > 0 && sorted[0].confidence >= MIN_CONFIDENCE
             && (|sorted| > 1 ==> sorted[0].confidence - sorted[1].confidence >= MIN_RUNNER_UP_GAP))
      <==> Beats(sorted, 0)
    ensures forall k :: Beats(sorted, k) ==> k == 0
  {
    assert forall j :: 1 < j < |sorted| ==> MoreConfident(sorted[1], sorted[j]);
    assert forall j :: 0 < j < |sorted| ==> MoreConfident(sorted[0], sorted[j]);
  }

  /** A match is exactly a candidate that is confident enough and beats every other compatible
      candidate by the gap. */
  lemma MatchIsClear(scored: seq<Scored>, s: Scored)
    ensures Clear(scored) == Some(s) <==> exists k :: Beats(scored, k) && scored[k] == s
  {
    var sorted := SortBy(MoreConfident, scored);
    ByConfidence(scored);
    FirstBeats(sorted);
    if Clear(scored) == Some(s) {
      var k := BeatsAnyOrder(sorted, scored, 0);
    }
    if k :| Beats(scored, k) && scored[k] == s {
      var m := BeatsAnyOrder(scored, sorted, k);
    }
  }

  /** The answer is the same for every ordering of the candidates. */
  lemma MatchForgetsOrder(oddsName: seq<Token>, teams: set<seq<nat>>, positions: set<seq<nat>>,
      a: seq<Candidate>, b: seq<Candidate>)
    requires multiset(a) == multiset(b)
    ensures Clear(CompatibleScores(oddsName, teams, positions, a))
        == Clear(CompatibleScores(oddsName, teams, positions, b))
  {
    var x, y := CompatibleScores(oddsName, teams, positions, a), CompatibleScores(oddsName, teams, positions, b);
    FilterMapAnyOrder(Fits(teams, positions), CandidateScorer(oddsName), a, b);
    if Clear(x).Some? {
      SameMatch(x, y, Clear(x).value);
    }
    if Clear(y).Some? {
      SameMatch(y, x, Clear(y).value);
    }
  }

  lemma SameMatch(a: seq<Scored>, b: seq<Scored>, s: Scored)
    requires multiset(a) == multiset(b) && Clear(a) == Some(s)
    ensures Clear(b) == Some(s)
  {
    MatchIsClear(a, s);
    MatchIsClear(b, s);
    var k :| Beats(a, k) && a[k] == s;
    var m := BeatsAnyOrder(a, b, k);
  }

  // ---------------------------------------------------------------- the match, said of the candidates

  /** A candidate plays for one of the teams, at one of the positions, and is confident enough;
      every other one that might play is less confident by the gap. */
  ghost predicate Stands(oddsName: seq<Token>, teams: set<seq<nat>>, positions: set<seq<nat>>,
      candidates: seq<Candidate>, k: int) {
    && 0 <= k < |candidates|
    && candidates[k].team in teams && candidates[k].position in positions
    && ScoreOf(oddsName, candidates[k]).confidence >= 0.94
    && forall j ::
         0 <= j < |candidates| && j != k && candidates[j].team in teams && candidates[j].position in positions ==>
         ScoreOf(oddsName, candidates[k]).confidence - ScoreOf(oddsName, candidates[j]).confidence >= 0.04
  }

  /** A match is exactly a candidate that stands out so, with its score. */
  lemma MatchExactly(oddsName: seq<Token>, teams: set<seq<nat>>, positions: set<seq<nat>>,
      candidates: seq<Candidate>, s: Scored)
    ensures Clear(CompatibleScores(oddsName, teams, positions, candidates)) == Some(s) <==>
      exists k :: Stands(oddsName, teams, positions, candidates, k) && s == ScoreOf(oddsName, candidates[k])
  {
    var scored := CompatibleScores(oddsName, teams, positions, candidates);
    var places := FilterMapPlaces(Fits(teams, positions), CandidateScorer(oddsName), candidates);
    MatchIsClear(scored, s);
    if i :| Beats(scored, i) && scored[i] == s {
      StandsWhenBeats(oddsName, teams, positions, candidates, places, i);
    }
    if k :| Stands(oddsName, teams, positions, candidates, k) && s == ScoreOf(oddsName, candidates[k]) {
      assert Fits(teams, positions)(candidates[k]);
      var i :| 0 <= i < |places| && places[i] == k;
      assert Beats(scored, i);
    }
  }

  lemma StandsWhenBeats(oddsName: seq<Token>, teams: set<seq<nat>>, positions: set<seq<nat>>,
      candidates: seq<Candidate>, places: seq<nat>, i: nat)
    requires Beats(CompatibleScores(oddsName, teams, positions, candidates), i)
    requires PlacesOf(Fits(teams, positions), CandidateScorer(oddsName), candidates,
                      CompatibleScores(oddsName, teams, positions, candidates), places)
    ensures i < |places| && Stands(oddsName, teams, positions, candidates, places[i])
  {
    forall j | 0 <= j < |candidates| && j != places[i] && Compatible(candidates[j], teams, positions)
      ensures ScoreOf(oddsName, candidates[places[i]]).confidence - ScoreOf(oddsName, candidates[j]).confidence >= 0.04
    {
      assert Fits(teams, positions)(candidates[j]);
      var h :| 0 <= h < |places| && places[h] == j;
    }
  }
}
