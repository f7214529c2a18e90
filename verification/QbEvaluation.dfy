/** The quarterback baseline evaluation: a coverage ledger matched against the scored examples,
    and group reports that must balance. */
module QbEvaluation {
  import opened Reals
  import opened Wrappers
  import opened Sorting
  import opened Calibration
  import Crps

  datatype Past = Past(game: Text, kickoff: int, yards: int)

  /** `retrospective`: the example is flagged as of unverified historical availability. */
  datatype Example = Example(player: Text, game: Text, season: int, cutoff: int, sampleSize: int,
    history: seq<Past>, target: int, retrospective: bool)

  datatype Coverage = Coverage(player: Text, game: Text, season: int, sampleSize: int,
    feature: bool, labelled: bool, policyExclusions: seq<Text>)

  datatype Mode = StrictPointInTime | RetrospectiveReconstruction

  /** What identifies a fold; the evaluation's history policy is the same throughout. */
  datatype Fold = Fold(player: Text, game: Text)

  datatype EvaluationError =
    | MissingIdentity | OutsideCoverageSeasons | InvalidCoverageSample | DuplicateCoverageFold
    | OutsideEvaluationSeasons | InvalidTargetLabel | InvalidSamplePolicy | DuplicateHistoryGame | PostCutoffHistory
    | InvalidHistoryYards | EvidenceModeMismatch | DuplicateEvaluationFold | ExampleCoverageMismatch | MissingScoredExample

  function CoverageFold(row: Coverage): Fold {
    Fold(row.player, row.game)
  }

  function ExampleFold(e: Example): Fold {
    Fold(e.player, e.game)
  }

  // ---------------------------------------------------------------- the ledger

  predicate ValidCoverage(row: Coverage) {
    Named(row.player) && Named(row.game) && 2021 <= row.season <= 2025 && 0 <= row.sampleSize <= 16
  }

  ghost predicate ValidLedger(rows: seq<Coverage>) {
    (forall i :: 0 <= i < |rows| ==> ValidCoverage(rows[i])) && Keyed(CoverageFold, rows)
  }

  /** The ledger of these rows: every row under its own fold. */
  ghost predicate IsLedger(ledger: map<Fold, Coverage>, rows: seq<Coverage>) {
    && (forall k :: k in ledger ==> exists i :: 0 <= i < |rows| && CoverageFold(rows[i]) == k)
    && (forall i :: 0 <= i < |rows| ==> CoverageFold(rows[i]) in ledger && ledger[CoverageFold(rows[i])] == rows[i])
  }

  lemma LedgerGrows(ledger: map<Fold, Coverage>, rows: seq<Coverage>, row: Coverage)
    requires IsLedger(ledger, rows) && CoverageFold(row) !in ledger && Keyed(CoverageFold, rows)
    ensures IsLedger(ledger[CoverageFold(row) := row], rows + [row]) && Keyed(CoverageFold, rows + [row])
  {
    var longer := rows + [row];
    assert longer[|rows|] == row;
    assert forall i :: 0 <= i < |rows| ==> longer[i] == rows[i];
    forall k | k in ledger
      ensures exists i :: 0 <= i < |longer| && CoverageFold(longer[i]) == k
    {
      var i :| 0 <= i < |rows| && CoverageFold(rows[i]) == k;
      assert CoverageFold(longer[i]) == k;
    }
  }

  /** One more row: it joins the ledger, or no ledger holds these rows. */
  lemma LedgerStep(ledger: map<Fold, Coverage>, rows: seq<Coverage>, i: nat)
    requires i < |rows| && ValidLedger(rows[..i]) && IsLedger(ledger, rows[..i])
    ensures var good := ValidCoverage(rows[i]) && CoverageFold(rows[i]) !in ledger;
      if good then ValidLedger(rows[..i + 1]) && IsLedger(ledger[CoverageFold(rows[i]) := rows[i]], rows[..i + 1])
      else !ValidLedger(rows)
  {
    assert rows[..i + 1] == rows[..i] + [rows[i]];
    if CoverageFold(rows[i]) in ledger {
      var k :| 0 <= k < i && CoverageFold(rows[..i][k]) == CoverageFold(rows[i]);
      assert CoverageFold(rows[k]) == CoverageFold(rows[i]);
    } else if ValidCoverage(rows[i]) {
      LedgerGrows(ledger, rows[..i], rows[i]);
    }
  }

  /** The first row that no ledger can hold after the rows before it, and why. */
  ghost predicate LedgerFlaw(rows: seq<Coverage>, i: nat, error: EvaluationError) {
    && i < |rows| && ValidLedger(rows[..i])
    && var row := rows[i];
       var identified := Named(row.player) && Named(row.game);
       var inSeason := identified && 2021 <= row.season <= 2025;
       var sampled := inSeason && 0 <= row.sampleSize <= 16;
       match error
       case MissingIdentity => !identified
       case OutsideCoverageSeasons => identified && !inSeason
       case InvalidCoverageSample => inSeason && !sampled
       case DuplicateCoverageFold => sampled && exists k :: 0 <= k < i && CoverageFold(rows[k]) == CoverageFold(row)
       case _ => false
  }

  method BuildLedger(rows: seq<Coverage>) returns (r: Result<map<Fold, Coverage>, EvaluationError>)
    ensures r.Ok? <==> ValidLedger(rows)
    ensures r.Ok? ==> IsLedger(r.value, rows)
    ensures r.Err? ==> exists i: nat :: LedgerFlaw(rows, i, r.error)
  {
    var ledger: map<Fold, Coverage> := map[];
    for i := 0 to |rows|
      invariant ValidLedger(rows[..i]) && IsLedger(ledger, rows[..i])
    {
      var row := rows[i];
      LedgerStep(ledger, rows, i);
      if !Named(row.player) || !Named(row.game) {
        assert LedgerFlaw(rows, i, MissingIdentity);
        return Err(MissingIdentity);
      }
      if !(2021 <= row.season <= 2025) {
        assert LedgerFlaw(rows, i, OutsideCoverageSeasons);
        return Err(OutsideCoverageSeasons);
      }
      if !(0 <= row.sampleSize <= 16) {
        assert LedgerFlaw(rows, i, InvalidCoverageSample);
        return Err(InvalidCoverageSample);
      }
      var key := CoverageFold(row);
      if key in ledger {
        ghost var k :| 0 <= k < i && CoverageFold(rows[..i][k]) == key;
        assert CoverageFold(rows[k]) == key;
        assert LedgerFlaw(rows, i, DuplicateCoverageFold);
        return Err(DuplicateCoverageFold);
      }
      ledger := ledger[key := row];
    }
    assert rows[..|rows|] == rows;
    return Ok(ledger);
  }

  // ---------------------------------------------------------------- examples

  ghost predicate PastQualifies(e: Example, i: nat)
    requires i < |e.history|
  {
    var h := e.history[i];
    Named(h.game) && h.game != e.game && h.kickoff < e.cutoff && Crps.Safe(h.yards)
  }

  function GameOf(h: Past): Text {
    h.game
  }

  /** An example that may be scored: identified, in season, with a history of distinct earlier
      games as long as its sample, and flagged as its evidence mode demands. */
  ghost predicate Qualifies(e: Example, mode: Mode) {
    && Named(e.player) && Named(e.game)
    && 2022 <= e.season <= 2025
    && Crps.Safe(e.target)
    && 2 <= e.sampleSize <= 16 && e.sampleSize == |e.history|
    && Keyed(GameOf, e.history)
    && (forall i :: 0 <= i < |e.history| ==> PastQualifies(e, i))
    && e.retrospective == mode.RetrospectiveReconstruction?
  }

  lemma SeenGame(e: Example, i: nat, seen: set<Text>)
    requires i < |e.history| && Keyed(GameOf, e.history[..i])
    requires forall g :: g in seen <==> exists k :: 0 <= k < i && GameOf(e.history[k]) == g
    ensures e.history[i].game in seen ==> !Keyed(GameOf, e.history)
    ensures e.history[i].game !in seen ==> Keyed(GameOf, e.history[..i + 1])
    ensures forall g :: g in seen + {e.history[i].game} <==> exists k :: 0 <= k < i + 1 && GameOf(e.history[k]) == g
  {
    if e.history[i].game in seen {
      var k :| 0 <= k < i && GameOf(e.history[k]) == e.history[i].game;
      assert GameOf(e.history[k]) == GameOf(e.history[i]);
    }
    assert forall k :: 0 <= k < i ==> e.history[..i][k] == e.history[k];
    assert GameOf(e.history[i]) == e.history[i].game;
  }

  /** The first `n` games of the history are in order. */
  ghost predicate PastsQualify(e: Example, n: nat)
    requires n <= |e.history|
  {
    Keyed(GameOf, e.history[..n]) && forall i :: 0 <= i < n ==> PastQualifies(e, i)
  }

  /** The first game of the history that is not in order, and why. */
  ghost predicate FirstPastFlaw(e: Example, i: nat, error: EvaluationError) {
    && i < |e.history| && PastsQualify(e, i)
    && var h := e.history[i];
       var named := Named(h.game) && forall k :: 0 <= k < i ==> GameOf(e.history[k]) != h.game;
       var earlier := h.game != e.game && h.kickoff < e.cutoff;
       match error
       case DuplicateHistoryGame => !named
       case PostCutoffHistory => named && !earlier
       case InvalidHistoryYards => named && earlier && !Crps.Safe(h.yards)
       case _ => false
  }

  /** Why an example is refused: the first check that fails. */
  ghost predicate Refusal(e: Example, mode: Mode, error: EvaluationError) {
    var identified := Named(e.player) && Named(e.game);
    var inSeason := identified && 2022 <= e.season <= 2025;
    var labelled := inSeason && Crps.Safe(e.target);
    var sampled := labelled && 2 <= e.sampleSize <= 16 && e.sampleSize == |e.history|;
    match error
    case MissingIdentity => !identified
    case OutsideEvaluationSeasons => identified && !inSeason
    case InvalidTargetLabel => inSeason && !labelled
    case InvalidSamplePolicy => labelled && !sampled
    case EvidenceModeMismatch =>
      sampled && PastsQualify(e, |e.history|) && e.retrospective != mode.RetrospectiveReconstruction?
    case _ => sampled && exists i: nat :: FirstPastFlaw(e, i, error)
  }

  method QualifyExample(e: Example, mode: Mode) returns (r: Result<Example, EvaluationError>)
    ensures r.Ok? <==> Qualifies(e, mode)
    ensures r.Ok? ==> r.value == e.(history := SortBy(PastLe, e.history))
    ensures r.Err? ==> Refusal(e, mode, r.error)
  {
    if !Named(e.player) || !Named(e.game) {
      return Err(MissingIdentity);
    }
    if !(2022 <= e.season <= 2025) {
      return Err(OutsideEvaluationSeasons);
    }
    if !Crps.Safe(e.target) {
      return Err(InvalidTargetLabel);
    }
    if !(2 <= e.sampleSize <= 16) || e.sampleSize != |e.history| {
      return Err(InvalidSamplePolicy);
    }
    var seen: set<Text> := {};
    for i := 0 to |e.history|
      invariant Keyed(GameOf, e.history[..i])
      invariant forall k :: 0 <= k < i ==> PastQualifies(e, k)
      invariant forall g :: g in seen <==> exists k :: 0 <= k < i && GameOf(e.history[k]) == g
    {
      var h := e.history[i];
      SeenGame(e, i, seen);
      if !Named(h.game) || h.game in seen {
        assert !Named(h.game) ==> !PastQualifies(e, i);
        assert FirstPastFlaw(e, i, DuplicateHistoryGame);
        return Err(DuplicateHistoryGame);
      }
      seen := seen + {h.game};
      if h.game == e.game || h.kickoff >= e.cutoff {
        assert !PastQualifies(e, i);
        assert FirstPastFlaw(e, i, PostCutoffHistory);
        return Err(PostCutoffHistory);
      }
      if !Crps.Safe(h.yards) {
        assert !PastQualifies(e, i);
        assert FirstPastFlaw(e, i, InvalidHistoryYards);
        return Err(InvalidHistoryYards);
      }
    }
    assert e.history[..|e.history|] == e.history;
    if e.retrospective != mode.RetrospectiveReconstruction? {
      return Err(EvidenceModeMismatch);
    }
    return Ok(e.(history := SortBy(PastLe, e.history)));
  }

  /** Latest game first, then by game. */
  function PastLe(a: Past, b: Past): bool {
    if a.kickoff == b.kickoff then TextLe(a.game, b.game) else a.kickoff > b.kickoff
  }

  // ---------------------------------------------------------------- matching the two

  predicate Eligible(row: Coverage) {
    row.season >= 2022 && row.feature && row.labelled && row.policyExclusions == []
  }

  predicate MatchesRow(row: Coverage, e: Example) {
    row.season == e.season && row.sampleSize == e.sampleSize && row.feature && row.labelled
        && row.policyExclusions == []
  }

  ghost predicate Covered(rows: seq<Coverage>, e: Example) {
    exists i :: 0 <= i < |rows| && CoverageFold(rows[i]) == ExampleFold(e) && MatchesRow(rows[i], e)
  }

  ghost predicate Scored(examples: seq<Example>, row: Coverage) {
    exists i :: 0 <= i < |examples| && ExampleFold(examples[i]) == CoverageFold(row)
  }

  /** Inputs the evaluation accepts: a valid ledger and qualified examples, one for every
      eligible row and none besides. */
  ghost predicate Accepts(rows: seq<Coverage>, examples: seq<Example>, mode: Mode) {
    && ValidLedger(rows)
    && Matched(rows, examples, mode)
    && (forall i :: 0 <= i < |rows| && Eligible(rows[i]) ==> Scored(examples, rows[i]))
  }

  /** In an accepted evaluation every example has a row of its player and game with the same
      season and sample, every eligible row has an example, and no player and game stand twice. */
  lemma OneToOne(rows: seq<Coverage>, examples: seq<Example>, mode: Mode)
    requires Accepts(rows, examples, mode)
    ensures forall e :: e in examples ==> exists row :: row in rows && Belonging(row, e)
    ensures forall row :: row in rows && Eligible(row) ==> exists e :: e in examples && Belonging(row, e)
    ensures forall i, j :: 0 <= i < j < |rows| ==> rows[i].player != rows[j].player || rows[i].game != rows[j].game
    ensures forall i, j :: 0 <= i < j < |examples| ==>
      examples[i].player != examples[j].player || examples[i].game != examples[j].game
  {
    forall e | e in examples
      ensures exists row :: row in rows && Belonging(row, e)
    {
      var k :| 0 <= k < |examples| && examples[k] == e;
      var i :| 0 <= i < |rows| && CoverageFold(rows[i]) == ExampleFold(e) && MatchesRow(rows[i], e);
      assert Belonging(rows[i], e);
    }
    forall row | row in rows && Eligible(row)
      ensures exists e :: e in examples && Belonging(row, e)
    {
      var k :| 0 <= k < |rows| && rows[k] == row;
      var j :| 0 <= j < |examples| && ExampleFold(examples[j]) == CoverageFold(row);
      var i :| 0 <= i < |rows| && CoverageFold(rows[i]) == ExampleFold(examples[j]) && MatchesRow(rows[i], examples[j]);
      SameKeySameElement(CoverageFold, rows, row, rows[i]);
      assert Belonging(row, examples[j]);
    }
    FoldsTellApart(rows, examples);
  }

  ghost predicate Belonging(row: Coverage, e: Example) {
    && row.player == e.player && row.game == e.game && row.season == e.season && row.sampleSize == e.sampleSize
    && row.feature && row.labelled && |row.policyExclusions| == 0
  }

  lemma FoldsTellApart(rows: seq<Coverage>, examples: seq<Example>)
    requires Keyed(CoverageFold, rows) && Keyed(ExampleFold, examples)
    ensures forall i, j :: 0 <= i < j < |rows| ==> rows[i].player != rows[j].player || rows[i].game != rows[j].game
    ensures forall i, j :: 0 <= i < j < |examples| ==>
      examples[i].player != examples[j].player || examples[i].game != examples[j].game
  {
    forall i, j | 0 <= i < j < |rows|
      ensures rows[i].player != rows[j].player || rows[i].game != rows[j].game
    {
      assert CoverageFold(rows[i]) != CoverageFold(rows[j]);
    }
    forall i, j | 0 <= i < j < |examples|
      ensures examples[i].player != examples[j].player || examples[i].game != examples[j].game
    {
      assert ExampleFold(examples[i]) != ExampleFold(examples[j]);
    }
  }

  lemma LedgerMatches(ledger: map<Fold, Coverage>, rows: seq<Coverage>, e: Example)
    requires IsLedger(ledger, rows) && Keyed(CoverageFold, rows)
    ensures (ExampleFold(e) in ledger && MatchesRow(ledger[ExampleFold(e)], e)) <==> Covered(rows, e)
  {
    if ExampleFold(e) in ledger {
      var i :| 0 <= i < |rows| && CoverageFold(rows[i]) == ExampleFold(e);
      assert ledger[ExampleFold(e)] == rows[i];
    }
  }

  function FoldsOf(examples: seq<Example>): set<Fold> {
    if examples == [] then {} else FoldsOf(examples[..|examples| - 1]) + {ExampleFold(examples[|examples| - 1])}
  }

  lemma {:induction false} InFolds(examples: seq<Example>, f: Fold)
    ensures f in FoldsOf(examples) <==> exists k :: 0 <= k < |examples| && ExampleFold(examples[k]) == f
  {
    if examples != [] {
      InFolds(examples[..|examples| - 1], f);
      assert forall k :: 0 <= k < |examples| - 1 ==> examples[..|examples| - 1][k] == examples[k];
    }
  }

  /** Whether the ledger holds the example's fold, as the example has it and eligible. */
  method HasCandidate(rows: seq<Coverage>, ledger: map<Fold, Coverage>, e: Example) returns (ok: bool)
    requires ValidLedger(rows) && IsLedger(ledger, rows)
    ensures ok <==> Covered(rows, e)
  {
    LedgerMatches(ledger, rows, e);
    ok := ExampleFold(e) in ledger && MatchesRow(ledger[ExampleFold(e)], e);
  }

  function FoldLe(a: Example, b: Example): bool {
    if a.cutoff != b.cutoff then a.cutoff < b.cutoff
    else if a.game != b.game then TextLe(a.game, b.game)
    else TextLe(a.player, b.player)
  }

  function SortedHistory(e: Example): Example {
    e.(history := SortBy(PastLe, e.history))
  }

  ghost predicate Matched(rows: seq<Coverage>, examples: seq<Example>, mode: Mode) {
    && (forall i :: 0 <= i < |examples| ==> Qualifies(examples[i], mode) && Covered(rows, examples[i]))
    && Keyed(ExampleFold, examples)
  }

  function SortedHistories(examples: seq<Example>): seq<Example> {
    if examples == [] then []
    else SortedHistories(examples[..|examples| - 1]) + [SortedHistory(examples[|examples| - 1])]
  }

  lemma MatchedPrefix(rows: seq<Coverage>, examples: seq<Example>, i: nat, mode: Mode)
    requires i <= |examples| && Matched(rows, examples, mode)
    ensures Matched(rows, examples[..i], mode)
  {
    assert forall k :: 0 <= k < i ==> examples[..i][k] == examples[k];
  }

  lemma MatchedSnoc(rows: seq<Coverage>, before: seq<Example>, e: Example, mode: Mode)
    requires Matched(rows, before, mode)
    ensures Matched(rows, before + [e], mode)
       <==> Qualifies(e, mode) && ExampleFold(e) !in FoldsOf(before) && Covered(rows, e)
  {
    var all := before + [e];
    InFolds(before, ExampleFold(e));
    assert all[|before|] == e;
    assert forall k :: 0 <= k < |before| ==> all[k] == before[k];
    if ExampleFold(e) in FoldsOf(before) {
      var k :| 0 <= k < |before| && ExampleFold(before[k]) == ExampleFold(e);
      assert ExampleFold(all[k]) == ExampleFold(all[|before|]);
    }
  }

  /** One more example: it joins the matched ones, or nothing that contains it is matched. */
  lemma MatchedStep(rows: seq<Coverage>, examples: seq<Example>, i: nat, mode: Mode)
    requires i < |examples| && Matched(rows, examples[..i], mode)
    ensures var good := Qualifies(examples[i], mode) && ExampleFold(examples[i]) !in FoldsOf(examples[..i])
        && Covered(rows, examples[i]);
      if good then Matched(rows, examples[..i + 1], mode) else !Matched(rows, examples, mode)
    ensures FoldsOf(examples[..i + 1]) == FoldsOf(examples[..i]) + {ExampleFold(examples[i])}
    ensures SortedHistories(examples[..i + 1]) == SortedHistories(examples[..i]) + [SortedHistory(examples[i])]
  {
    MatchedSnoc(rows, examples[..i], examples[i], mode);
    assert examples[..i + 1] == examples[..i] + [examples[i]];
    assert examples[..i + 1][..i] == examples[..i];
    if Matched(rows, examples, mode) {
      MatchedPrefix(rows, examples, i + 1, mode);
    }
  }

  /** The first example that does not match, and why. */
  ghost predicate ExampleFlaw(rows: seq<Coverage>, examples: seq<Example>, i: nat, mode: Mode, error: EvaluationError) {
    && i < |examples| && Matched(rows, examples[..i], mode)
    && var e := examples[i];
       if !Qualifies(e, mode) then Refusal(e, mode, error)
       else if exists k :: 0 <= k < i && ExampleFold(examples[k]) == ExampleFold(e) then error
           == DuplicateEvaluationFold
       else !Covered(rows, e) && error == ExampleCoverageMismatch
  }

  lemma SeenBefore(examples: seq<Example>, i: nat)
    requires i < |examples|
    ensures ExampleFold(examples[i]) in FoldsOf(examples[..i])
       <==> exists k :: 0 <= k < i && ExampleFold(examples[k]) == ExampleFold(examples[i])
  {
    InFolds(examples[..i], ExampleFold(examples[i]));
    assert forall k :: 0 <= k < i ==> examples[..i][k] == examples[k];
  }

  lemma FlawIsFinal(rows: seq<Coverage>, examples: seq<Example>, i: nat, mode: Mode, error: EvaluationError)
    requires ExampleFlaw(rows, examples, i, mode, error)
    ensures !Matched(rows, examples, mode)
  {
  }

  /** Matches the next example with the ledger. */
  method MatchNext(rows: seq<Coverage>, ledger: map<Fold, Coverage>, examples: seq<Example>, i: nat,
      seen: set<Fold>, mode: Mode)
    returns (r: Result<Example, EvaluationError>)
    requires ValidLedger(rows) && IsLedger(ledger, rows)
    requires i < |examples| && Matched(rows, examples[..i], mode) && seen == FoldsOf(examples[..i])
    ensures r.Ok? ==> Qualifies(examples[i], mode) && ExampleFold(examples[i]) !in seen && Covered(rows, examples[i])
    ensures r.Ok? ==> r.value == SortedHistory(examples[i])
    ensures r.Err? ==> ExampleFlaw(rows, examples, i, mode, r.error)
  {
    r := QualifyExample(examples[i], mode);
    if r.Err? {
      return;
    }
    SeenBefore(examples, i);
    if ExampleFold(examples[i]) in seen {
      return Err(DuplicateEvaluationFold);
    }
    var candidate := HasCandidate(rows, ledger, examples[i]);
    if !candidate {
      return Err(ExampleCoverageMismatch);
    }
  }

  /** Matches every example with the ledger. */
  method MatchEach(rows: seq<Coverage>, ledger: map<Fold, Coverage>, examples: seq<Example>, mode: Mode)
    returns (r: Result<seq<Example>, EvaluationError>, seen: set<Fold>)
    requires ValidLedger(rows) && IsLedger(ledger, rows)
    ensures r.Ok? <==> Matched(rows, examples, mode)
    ensures r.Ok? ==> r.value == SortedHistories(examples) && seen == FoldsOf(examples)
    ensures r.Err? ==> exists i: nat :: ExampleFlaw(rows, examples, i, mode, r.error)
  {
    seen := {};
    var folds: seq<Example> := [];
    for i := 0 to |examples|
      invariant Matched(rows, examples[..i], mode)
      invariant seen == FoldsOf(examples[..i])
      invariant folds == SortedHistories(examples[..i])
    {
      var next := MatchNext(rows, ledger, examples, i, seen, mode);
      if next.Err? {
        FlawIsFinal(rows, examples, i, mode, next.error);
        return Err(next.error), seen;
      }
      MatchedStep(rows, examples, i, mode);
      seen := seen + {ExampleFold(examples[i])};
      folds := folds + [next.value];
    }
    assert examples[..|examples|] == examples;
    return Ok(folds), seen;
  }

  /** Whether every eligible row of the ledger has been seen. */
  method AllScored(rows: seq<Coverage>, examples: seq<Example>, seen: set<Fold>) returns (ok: bool)
    requires seen == FoldsOf(examples)
    ensures ok <==> forall i :: 0 <= i < |rows| && Eligible(rows[i]) ==> Scored(examples, rows[i])
  {
    for i := 0 to |rows|
      invariant forall k :: 0 <= k < i && Eligible(rows[k]) ==> Scored(examples, rows[k])
    {
      InFolds(examples, CoverageFold(rows[i]));
      if Eligible(rows[i]) && CoverageFold(rows[i]) !in seen {
        return false;
      }
    }
    return true;
  }

  /** Matches every example with the ledger, then every eligible row with an example; the result
      is the folds in order. */
  method MatchExamples(rows: seq<Coverage>, examples: seq<Example>, mode: Mode)
    returns (r: Result<seq<Example>, EvaluationError>)
    ensures r.Ok? <==> Accepts(rows, examples, mode)
    ensures r.Ok? ==> r.value == SortBy(FoldLe, SortedHistories(examples))
    ensures r.Err? ==>
      if !ValidLedger(rows) then exists i: nat :: LedgerFlaw(rows, i, r.error)
      else if !Matched(rows, examples, mode) then exists i: nat :: ExampleFlaw(rows, examples, i, mode, r.error)
      else r.error == MissingScoredExample
  {
    var built := BuildLedger(rows);
    if built.Err? {
      return Err(built.error);
    }
    var matched, seen := MatchEach(rows, built.value, examples, mode);
    if matched.Err? {
      return matched;
    }
    var complete := AllScored(rows, examples, seen);
    if !complete {
      return Err(MissingScoredExample);
    }
    return Ok(SortBy(FoldLe, matched.value));
  }

  // ---------------------------------------------------------------- groups

  datatype Stratum = From2To4 | From5To8 | From9To16 | Unassigned

  function StratumOf(n: int): Stratum {
    if n >= 9 then From9To16 else if n >= 5 then From5To8 else if n >= 2 then From2To4 else Unassigned
  }

  /** A report group: one season or all of them, one stratum or all of them. */
  datatype Group = Group(season: Option<int>, stratum: Option<Stratum>)

  predicate InGroup(season: int, sampleSize: int, g: Group) {
    (g.season.None? || season == g.season.value) && (g.stratum.None? || StratumOf(sampleSize) == g.stratum.value)
  }

  predicate IsCandidate(row: Coverage, g: Group) {
    row.season >= 2022 && InGroup(row.season, row.sampleSize, g)
  }

  function Candidates(rows: seq<Coverage>, g: Group): nat {
    if rows == [] then 0 else (if IsCandidate(rows[0], g) then 1 else 0) + Candidates(rows[1..], g)
  }

  function FoldsIn(folds: seq<Example>, g: Group): nat {
    if folds == [] then 0
    else (if InGroup(folds[0].season, folds[0].sampleSize, g) then 1 else 0) + FoldsIn(folds[1..], g)
  }

  /** Why a candidate was not scored: the first reason that applies. */
  datatype Exclusion = FeatureUnavailable | LabelUnavailable | PolicyExcluded

  function ExclusionOf(row: Coverage): Option<Exclusion> {
    if !row.feature then Some(FeatureUnavailable)
    else if !row.labelled then Some(LabelUnavailable)
    else if row.policyExclusions != [] then Some(PolicyExcluded)
    else None
  }

  function Excluded(rows: seq<Coverage>, g: Group, why: Exclusion): nat {
    if rows == [] then 0
    else (if IsCandidate(rows[0], g) && ExclusionOf(rows[0]) == Some(why) then 1 else 0) + Excluded(rows[1..], g, why)
  }

  /** What a report group takes in. */
  ghost predicate Belongs(season: int, sampleSize: int, g: Group) {
    && (g.season.Some? ==> season == g.season.value)
    && match g.stratum
       case None => true
       case Some(From2To4) => 2 <= sampleSize <= 4
       case Some(From5To8) => 5 <= sampleSize <= 8
       case Some(From9To16) => sampleSize > 8
       case Some(Unassigned) => sampleSize < 2
  }

  ghost function CandidateOf(g: Group): Coverage -> bool {
    (row: Coverage) => row.season >= 2022 && Belongs(row.season, row.sampleSize, g)
  }

  ghost function LeftOutOf(g: Group, why: Exclusion): Coverage -> bool {
    (row: Coverage) =>
      && row.season >= 2022 && Belongs(row.season, row.sampleSize, g)
      && match why
         case FeatureUnavailable => !row.feature
         case LabelUnavailable => row.feature && !row.labelled
         case PolicyExcluded => row.feature && row.labelled && |row.policyExclusions| > 0
  }

  ghost function FoldOf(g: Group): Example -> bool {
    (e: Example) => Belongs(e.season, e.sampleSize, g)
  }

  /** What a group reports is how many rows are its candidates, how many of them miss a feature,
      miss only a label, or miss neither and are excluded, and how many folds belong to it. */
  lemma {:induction false} ReportCounts(rows: seq<Coverage>, folds: seq<Example>, g: Group, why: Exclusion)
    ensures Candidates(rows, g) == HowMany(CandidateOf(g), rows)
    ensures Excluded(rows, g, why) == HowMany(LeftOutOf(g, why), rows)
    ensures FoldsIn(folds, g) == HowMany(FoldOf(g), folds)
    decreases |rows| + |folds|
  {
    if rows != [] {
      ReportCounts(rows[1..], folds, g, why);
      HowManyTail(CandidateOf(g), rows);
      HowManyTail(LeftOutOf(g, why), rows);
    } else if folds != [] {
      ReportCounts(rows, folds[1..], g, why);
      HowManyTail(FoldOf(g), folds);
    } else {
      NoneAreSuch(CandidateOf(g));
      NoneAreSuch(LeftOutOf(g, why));
      NoneAreSuch(FoldOf(g));
    }
  }

  // ---------------------------------------------------------------- every group balances

  /** What a row and the example scored for it have in common. */
  datatype Tag = Tag(fold: Fold, season: int, sampleSize: int)

  function RowTag(row: Coverage): Tag {
    Tag(CoverageFold(row), row.season, row.sampleSize)
  }

  function ExampleTag(e: Example): Tag {
    Tag(ExampleFold(e), e.season, e.sampleSize)
  }

  ghost function RowTags(rows: seq<Coverage>): seq<Tag> {
    if rows == [] then []
    else (if Eligible(rows[0]) then [RowTag(rows[0])] else []) + RowTags(rows[1..])
  }

  ghost function ExampleTags(examples: seq<Example>): seq<Tag> {
    if examples == [] then [] else [ExampleTag(examples[0])] + ExampleTags(examples[1..])
  }

  ghost function TagsIn(tags: seq<Tag>, g: Group): nat {
    if tags == [] then 0
    else (if InGroup(tags[0].season, tags[0].sampleSize, g) then 1 else 0) + TagsIn(tags[1..], g)
  }

  lemma {:induction false} TagsInWithout(b: seq<Tag>, j: nat, g: Group)
    requires j < |b|
    ensures TagsIn(b, g) == TagsIn(b[..j] + b[j + 1..], g) + if InGroup(b[j].season, b[j].sampleSize, g) then 1 else 0
  {
    if j == 0 {
      assert b[..0] + b[1..] == b[1..];
    } else {
      TagsInWithout(b[1..], j - 1, g);
      assert b[1..][..j - 1] + b[1..][j..] == (b[..j] + b[j + 1..])[1..];
    }
  }

  lemma {:induction false} TagsAnyOrder(a: seq<Tag>, b: seq<Tag>, g: Group)
    requires multiset(a) == multiset(b)
    ensures TagsIn(a, g) == TagsIn(b, g)
  {
    if a == [] {
      SameElements(a, b);
    } else {
      var j := Partner(a, b);
      TagsAnyOrder(a[1..], b[..j] + b[j + 1..], g);
      TagsInWithout(b, j, g);
    }
  }

  lemma {:induction false} RowTagsAre(rows: seq<Coverage>, t: Tag)
    ensures t in RowTags(rows) <==> exists i :: 0 <= i < |rows| && Eligible(rows[i]) && RowTag(rows[i]) == t
  {
    if rows != [] {
      RowTagsAre(rows[1..], t);
      assert forall i :: 0 <= i < |rows[1..]| ==> rows[1..][i] == rows[i + 1];
      assert forall i :: 0 < i < |rows| ==> rows[i] == rows[1..][i - 1];
    }
  }

  lemma {:induction false} ExampleTagsAre(examples: seq<Example>, t: Tag)
    ensures t in ExampleTags(examples) <==> exists i :: 0 <= i < |examples| && ExampleTag(examples[i]) == t
  {
    if examples != [] {
      ExampleTagsAre(examples[1..], t);
      assert forall i :: 0 <= i < |examples[1..]| ==> examples[1..][i] == examples[i + 1];
      assert forall i :: 0 < i < |examples| ==> examples[i] == examples[1..][i - 1];
    }
  }

  lemma {:induction false} RowTagOnce(rows: seq<Coverage>, t: Tag)
    requires Keyed(CoverageFold, rows)
    ensures multiset(RowTags(rows))[t] <= 1
  {
    if rows != [] {
      RowTagOnce(rows[1..], t);
      RowTagsAre(rows[1..], RowTag(rows[0]));
      assert forall i :: 0 <= i < |rows[1..]| ==> rows[1..][i] == rows[i + 1];
      assert RowTag(rows[0]) !in RowTags(rows[1..]);
    }
  }

  lemma {:induction false} ExampleTagOnce(examples: seq<Example>, t: Tag)
    requires Keyed(ExampleFold, examples)
    ensures multiset(ExampleTags(examples))[t] <= 1
  {
    if examples != [] {
      ExampleTagOnce(examples[1..], t);
      ExampleTagsAre(examples[1..], ExampleTag(examples[0]));
      assert forall i :: 0 <= i < |examples[1..]| ==> examples[1..][i] == examples[i + 1];
      assert ExampleTag(examples[0]) !in ExampleTags(examples[1..]);
    }
  }

  lemma SameTag(rows: seq<Coverage>, examples: seq<Example>, mode: Mode, t: Tag)
    requires Accepts(rows, examples, mode)
    ensures t in RowTags(rows) <==> t in ExampleTags(examples)
  {
    RowTagsAre(rows, t);
    ExampleTagsAre(examples, t);
    if t in RowTags(rows) {
      var i :| 0 <= i < |rows| && Eligible(rows[i]) && RowTag(rows[i]) == t;
      assert Scored(examples, rows[i]);
      var j :| 0 <= j < |examples| && ExampleFold(examples[j]) == CoverageFold(rows[i]);
      assert Covered(rows, examples[j]);
      var k :| 0 <= k < |rows| && CoverageFold(rows[k]) == ExampleFold(examples[j]) && MatchesRow(rows[k], examples[j]);
      assert CoverageFold(rows[i]) == CoverageFold(rows[k]);
      assert i == k;
      assert ExampleTag(examples[j]) == t;
    }
    if t in ExampleTags(examples) {
      var j :| 0 <= j < |examples| && ExampleTag(examples[j]) == t;
      assert Qualifies(examples[j], mode) && Covered(rows, examples[j]);
      var k :| 0 <= k < |rows| && CoverageFold(rows[k]) == ExampleFold(examples[j]) && MatchesRow(rows[k], examples[j]);
      assert Eligible(rows[k]) && RowTag(rows[k]) == t;
    }
  }

  lemma SameTags(rows: seq<Coverage>, examples: seq<Example>, mode: Mode)
    requires Accepts(rows, examples, mode)
    ensures multiset(RowTags(rows)) == multiset(ExampleTags(examples))
  {
    forall t
      ensures multiset(RowTags(rows))[t] == multiset(ExampleTags(examples))[t]
    {
      SameTag(rows, examples, mode, t);
      RowTagOnce(rows, t);
      ExampleTagOnce(examples, t);
      assert t in RowTags(rows) <==> t in multiset(RowTags(rows));
      assert t in ExampleTags(examples) <==> t in multiset(ExampleTags(examples));
    }
  }

  lemma {:induction false} CandidatesSplit(rows: seq<Coverage>, g: Group)
    ensures Candidates(rows, g) == TagsIn(RowTags(rows), g) + Excluded(rows, g, FeatureUnavailable)
      + Excluded(rows, g, LabelUnavailable) + Excluded(rows, g, PolicyExcluded)
  {
    if rows != [] {
      CandidatesSplit(rows[1..], g);
      if Eligible(rows[0]) {
        assert RowTags(rows)[1..] == RowTags(rows[1..]);
      } else {
        assert RowTags(rows) == RowTags(rows[1..]);
      }
    }
  }

  lemma {:induction false} FoldsByTag(folds: seq<Example>, g: Group)
    ensures FoldsIn(folds, g) == TagsIn(ExampleTags(folds), g)
  {
    if folds != [] {
      FoldsByTag(folds[1..], g);
    }
  }

  lemma {:induction false} ExampleTagElements(examples: seq<Example>, e: Example)
    ensures ExampleTags(examples + [e]) == ExampleTags(examples) + [ExampleTag(e)]
  {
    if examples == [] {
      assert [] + [e] == [e];
    } else {
      ExampleTagElements(examples[1..], e);
      assert (examples + [e])[1..] == examples[1..] + [e];
    }
  }

  lemma {:induction false} HistoriesDoNotTag(examples: seq<Example>)
    ensures ExampleTags(SortedHistories(examples)) == ExampleTags(examples)
  {
    if examples != [] {
      var n := |examples| - 1;
      HistoriesDoNotTag(examples[..n]);
      ExampleTagElements(examples[..n], examples[n]);
      ExampleTagElements(SortedHistories(examples[..n]), SortedHistory(examples[n]));
      assert examples == examples[..n] + [examples[n]];
    }
  }

  lemma {:induction false} TagsOfRearranged(a: seq<Example>, b: seq<Example>)
    requires multiset(a) == multiset(b)
    ensures multiset(ExampleTags(a)) == multiset(ExampleTags(b))
  {
    if a == [] {
      SameElements(a, b);
    } else {
      var j := Partner(a, b);
      TagsOfRearranged(a[1..], b[..j] + b[j + 1..]);
      TagsWithout(b, j);
    }
  }

  lemma TagsCons(b: seq<Example>)
    requires b != []
    ensures multiset(ExampleTags(b)) == multiset([ExampleTag(b[0])]) + multiset(ExampleTags(b[1..]))
  {
    assert ExampleTags(b) == [ExampleTag(b[0])] + ExampleTags(b[1..]);
  }

  lemma {:induction false} TagsWithout(b: seq<Example>, j: nat)
    requires j < |b|
    ensures multiset(ExampleTags(b)) == multiset(ExampleTags(b[..j] + b[j + 1..])) + multiset([ExampleTag(b[j])])
  {
    TagsCons(b);
    var less := b[..j] + b[j + 1..];
    if j == 0 {
      assert less == b[1..];
    } else {
      WithoutLater(b, j);
      TagsWithout(b[1..], j - 1);
      TagsCons(less);
      Regrouped(multiset(ExampleTags(b)), multiset([ExampleTag(b[0])]), multiset(ExampleTags(b[1..])),
                multiset(ExampleTags(less[1..])), multiset([ExampleTag(b[j])]));
    }
  }

  /** In every group the candidates are the scored folds plus the excluded ones, each excluded
      one counted under one reason. */
  lemma GroupBalances(rows: seq<Coverage>, examples: seq<Example>, mode: Mode, folds: seq<Example>, g: Group)
    requires Accepts(rows, examples, mode) && folds == SortBy(FoldLe, SortedHistories(examples))
    ensures Candidates(rows, g) == FoldsIn(folds, g) + Excluded(rows, g, FeatureUnavailable)
      + Excluded(rows, g, LabelUnavailable) + Excluded(rows, g, PolicyExcluded)
  {
    CandidatesSplit(rows, g);
    SameTags(rows, examples, mode);
    HistoriesDoNotTag(examples);
    SortKeeps(FoldLe, SortedHistories(examples));
    TagsOfRearranged(folds, SortedHistories(examples));
    FoldsByTag(folds, g);
    TagsAnyOrder(RowTags(rows), ExampleTags(folds), g);
  }

  // ---------------------------------------------------------------- groups add up

  /** The strata of a season, or of all seasons, add up to the whole of it. */
  lemma {:induction false} StrataAddUp(rows: seq<Coverage>, folds: seq<Example>, season: Option<int>)
    ensures Candidates(rows, Group(season, None))
         == Candidates(rows, Group(season, Some(From2To4))) + Candidates(rows, Group(season, Some(From5To8)))
          + Candidates(rows, Group(season, Some(From9To16))) + Candidates(rows, Group(season, Some(Unassigned)))
    ensures FoldsIn(folds, Group(season, None))
         == FoldsIn(folds, Group(season, Some(From2To4))) + FoldsIn(folds, Group(season, Some(From5To8)))
          + FoldsIn(folds, Group(season, Some(From9To16))) + FoldsIn(folds, Group(season, Some(Unassigned)))
    decreases |rows| + |folds|
  {
    if rows != [] {
      StrataAddUp(rows[1..], folds, season);
    } else if folds != [] {
      StrataAddUp(rows, folds[1..], season);
    }
  }

  lemma {:induction false} SeasonsOfRows(rows: seq<Coverage>, stratum: Option<Stratum>)
    requires forall i :: 0 <= i < |rows| ==> ValidCoverage(rows[i])
    ensures Candidates(rows, Group(None, stratum))
         == Candidates(rows, Group(Some(2022), stratum)) + Candidates(rows, Group(Some(2023), stratum))
          + Candidates(rows, Group(Some(2024), stratum)) + Candidates(rows, Group(Some(2025), stratum))
  {
    if rows != [] {
      assert ValidCoverage(rows[0]);
      SeasonsOfRows(rows[1..], stratum);
    }
  }

  lemma {:induction false} SeasonsOfFolds(folds: seq<Example>, stratum: Option<Stratum>)
    requires forall i :: 0 <= i < |folds| ==> 2022 <= folds[i].season <= 2025
    ensures FoldsIn(folds, Group(None, stratum))
         == FoldsIn(folds, Group(Some(2022), stratum)) + FoldsIn(folds, Group(Some(2023), stratum))
          + FoldsIn(folds, Group(Some(2024), stratum)) + FoldsIn(folds, Group(Some(2025), stratum))
  {
    if folds != [] {
      SeasonsOfFolds(folds[1..], stratum);
    }
  }

  lemma {:induction false} FoldsQualify(examples: seq<Example>, folds: seq<Example>, mode: Mode)
    requires folds == SortBy(FoldLe, SortedHistories(examples))
    requires forall i :: 0 <= i < |examples| ==> Qualifies(examples[i], mode)
    ensures forall i :: 0 <= i < |folds| ==> 2022 <= folds[i].season <= 2025 && Scorable(folds[i])
  {
    SortKeeps(FoldLe, SortedHistories(examples));
    SameElements(folds, SortedHistories(examples));
    SortedHistoriesAre(examples);
    forall i | 0 <= i < |folds|
      ensures 2022 <= folds[i].season <= 2025 && Scorable(folds[i])
    {
      assert folds[i] in SortedHistories(examples);
      var k :| 0 <= k < |examples| && folds[i] == SortedHistory(examples[k]);
      SortedHistoryScorable(examples[k], mode);
    }
  }

  /** A fold's history runs from its latest game to its earliest, games at one time by their name. */
  lemma HistoryInOrder(e: Example, mode: Mode)
    requires Qualifies(e, mode)
    ensures multiset(SortedHistory(e).history) == multiset(e.history)
    ensures forall i, j :: 0 <= i < j < |SortedHistory(e).history| ==>
      var a, b := SortedHistory(e).history[i], SortedHistory(e).history[j];
      a.kickoff > b.kickoff || (a.kickoff == b.kickoff && a.game != b.game && TextLe(a.game, b.game))
  {
    var h := SortBy(PastLe, e.history);
    PastOrder();
    SortKeeps(PastLe, e.history);
    SortSorts(PastLe, e.history);
    KeyedAnyOrder(GameOf, e.history, h);
    forall i, j | 0 <= i < j < |h|
      ensures h[i].kickoff > h[j].kickoff
          || (h[i].kickoff == h[j].kickoff && h[i].game != h[j].game && TextLe(h[i].game, h[j].game))
    {
      assert PastLe(h[i], h[j]) && GameOf(h[i]) != GameOf(h[j]);
    }
  }

  lemma PastOrder()
    ensures TotalPreorder(PastLe)
  {
    TextOrder();
  }

  lemma FoldOrder()
    ensures TotalPreorder(FoldLe)
  {
    TextOrder();
  }

  /** The folds run by cutoff, then by game, then by player. */
  lemma FoldsInOrder(examples: seq<Example>, i: nat, j: nat)
    requires i < j < |examples|
    ensures |SortBy(FoldLe, SortedHistories(examples))| == |examples|
    ensures var folds := SortBy(FoldLe, SortedHistories(examples));
      && folds[i].cutoff <= folds[j].cutoff
      && (folds[i].cutoff == folds[j].cutoff ==> TextLe(folds[i].game, folds[j].game))
      && (folds[i].cutoff == folds[j].cutoff && folds[i].game == folds[j].game ==>
          TextLe(folds[i].player, folds[j].player))
  {
    var all := SortedHistories(examples);
    FoldOrder();
    SortKeeps(FoldLe, all);
    SortSorts(FoldLe, all);
    AsManyHistories(examples);
    assert FoldLe(SortBy(FoldLe, all)[i], SortBy(FoldLe, all)[j]);
    TextOrder();
  }

  lemma {:induction false} AsManyHistories(examples: seq<Example>)
    ensures |SortedHistories(examples)| == |examples|
  {
    if examples != [] {
      AsManyHistories(examples[..|examples| - 1]);
    }
  }

  lemma {:induction false} SortedHistoriesAre(examples: seq<Example>)
    ensures forall f :: f in SortedHistories(examples) ==>
        exists k :: 0 <= k < |examples| && f == SortedHistory(examples[k])
  {
    if examples != [] {
      var n := |examples| - 1;
      SortedHistoriesAre(examples[..n]);
      assert forall k :: 0 <= k < n ==> examples[..n][k] == examples[k];
    }
  }

  /** A fold with a history to score, in integers the score accepts. */
  ghost predicate Scorable(e: Example) {
    |e.history| >= 2 && Crps.Safe(e.target) && forall i :: 0 <= i < |e.history| ==> Crps.Safe(e.history[i].yards)
  }

  lemma SortedHistoryScorable(e: Example, mode: Mode)
    requires Qualifies(e, mode)
    ensures Scorable(SortedHistory(e))
  {
    var sorted := SortBy(PastLe, e.history);
    SortKeeps(PastLe, e.history);
    SameElements(e.history, sorted);
    forall i | 0 <= i < |sorted|
      ensures Crps.Safe(sorted[i].yards)
    {
      assert sorted[i] in e.history;
      var k :| 0 <= k < |e.history| && e.history[k] == sorted[i];
      assert PastQualifies(e, k);
    }
  }

  /** Every fold of an accepted evaluation gets a score. */
  lemma EveryFoldIsScored(rows: seq<Coverage>, examples: seq<Example>, mode: Mode, folds: seq<Example>, i: nat)
    requires Accepts(rows, examples, mode) && folds == SortBy(FoldLe, SortedHistories(examples)) && i < |folds|
    ensures folds[i].history != [] && Crps.IntegerRps(Yards(folds[i]), folds[i].target).Ok?
  {
    FoldsQualify(examples, folds, mode);
    assert Scorable(folds[i]);
  }

  /** The seasons add up to the overall group. */
  lemma SeasonsAddUp(rows: seq<Coverage>, examples: seq<Example>, mode: Mode, folds: seq<Example>,
      stratum: Option<Stratum>)
    requires Accepts(rows, examples, mode) && folds == SortBy(FoldLe, SortedHistories(examples))
    ensures Candidates(rows, Group(None, stratum))
         == Candidates(rows, Group(Some(2022), stratum)) + Candidates(rows, Group(Some(2023), stratum))
          + Candidates(rows, Group(Some(2024), stratum)) + Candidates(rows, Group(Some(2025), stratum))
    ensures FoldsIn(folds, Group(None, stratum))
         == FoldsIn(folds, Group(Some(2022), stratum)) + FoldsIn(folds, Group(Some(2023), stratum))
          + FoldsIn(folds, Group(Some(2024), stratum)) + FoldsIn(folds, Group(Some(2025), stratum))
  {
    SeasonsOfRows(rows, stratum);
    FoldsQualify(examples, folds, mode);
    SeasonsOfFolds(folds, stratum);
  }

  function Yards(e: Example): (ys: seq<int>)
    ensures |ys| == |e.history| && forall i :: 0 <= i < |ys| ==> ys[i] == e.history[i].yards
  {
    seq(|e.history|, i requires 0 <= i < |e.history| => e.history[i].yards)
  }

  // ---------------------------------------------------------------- calibration of a group

  predicate WithHistory(folds: seq<Example>) {
    forall i :: 0 <= i < |folds| ==> folds[i].history != []
  }

  function CaseBin(e: Example, line: real, side: Side): nat
    requires e.history != []
  {
    BinOf(BinsOf(Yards(e), line), side)
  }

  function CaseProbability(e: Example, line: real, side: Side): real
    requires e.history != []
  {
    Share(CountSide(Yards(e), line, side), |Yards(e)|)
  }

  /** The probabilities of the cases of one group, threshold and side that fall into a bin. */
  function Members(folds: seq<Example>, g: Group, line: real, side: Side, bin: nat): seq<real>
    requires WithHistory(folds)
  {
    if folds == [] then []
    else
      var e := folds[|folds| - 1];
      Members(folds[..|folds| - 1], g, line, side, bin)
      + if InGroup(e.season, e.sampleSize, g)
          && CaseBin(e, line, side) == bin then [CaseProbability(e, line, side)] else []
  }

  ghost function BinnedBelow(folds: seq<Example>, g: Group, line: real, side: Side, bins: nat): nat
    requires WithHistory(folds)
  {
    if bins == 0 then 0
    else BinnedBelow(folds, g, line, side, bins - 1) + |Members(folds, g, line, side, bins - 1)|
  }

  lemma {:induction false} OneMoreCase(folds: seq<Example>, g: Group, line: real, side: Side, bins: nat)
    requires folds != [] && WithHistory(folds)
    ensures var e := folds[|folds| - 1];
      BinnedBelow(folds, g, line, side, bins)
      == BinnedBelow(folds[..|folds| - 1], g, line, side, bins)
         + if InGroup(e.season, e.sampleSize, g) && CaseBin(e, line, side) < bins then 1 else 0
  {
    if bins > 0 {
      OneMoreCase(folds, g, line, side, bins - 1);
    }
  }

  lemma {:induction false} NoCases(g: Group, line: real, side: Side, bins: nat)
    ensures BinnedBelow([], g, line, side, bins) == 0
  {
    if bins > 0 {
      NoCases(g, line, side, bins - 1);
    }
  }

  lemma {:induction false} FoldsInSnoc(folds: seq<Example>, e: Example, g: Group)
    ensures FoldsIn(folds + [e], g) == FoldsIn(folds, g) + if InGroup(e.season, e.sampleSize, g) then 1 else 0
  {
    if folds == [] {
      assert [] + [e] == [e];
    } else {
      FoldsInSnoc(folds[1..], e, g);
      assert (folds + [e])[1..] == folds[1..] + [e];
    }
  }

  /** Each scored case of a group falls into exactly one of the ten bins of a side. */
  lemma {:induction false} EachCaseInOneBin(folds: seq<Example>, g: Group, line: real, side: Side)
    requires WithHistory(folds)
    ensures BinnedBelow(folds, g, line, side, 10) == FoldsIn(folds, g)
  {
    if folds == [] {
      NoCases(g, line, side, 10);
    } else {
      var n := |folds| - 1;
      EachCaseInOneBin(folds[..n], g, line, side);
      OneMoreCase(folds, g, line, side, 10);
      FoldsInSnoc(folds[..n], folds[n], g);
      assert folds == folds[..n] + [folds[n]];
    }
  }

  ghost function CaseOf(g: Group, line: real, side: Side, bin: nat): Example -> bool {
    (e: Example) => e.history != [] && Belongs(e.season, e.sampleSize, g) && CaseBin(e, line, side) == bin
  }

  /** A bin reports as many cases as the group has in it. */
  lemma {:induction false} BinCounts(folds: seq<Example>, g: Group, line: real, side: Side, bin: nat)
    requires WithHistory(folds)
    ensures |Members(folds, g, line, side, bin)| == HowMany(CaseOf(g, line, side, bin), folds)
  {
    if folds == [] {
      NoneAreSuch(CaseOf(g, line, side, bin));
    } else {
      BinCounts(folds[..|folds| - 1], g, line, side, bin);
      HowManyInit(CaseOf(g, line, side, bin), folds);
    }
  }

  lemma CaseInBin(e: Example, line: real, side: Side)
    requires e.history != []
    ensures CaseBin(e, line, side) as real / 10.0 <= CaseProbability(e, line, side)
    ensures CaseProbability(e, line, side) <= (CaseBin(e, line, side) + 1) as real / 10.0
  {
    BinHolds(CountSide(Yards(e), line, side), |Yards(e)|);
  }

  lemma {:induction false} MembersInBin(folds: seq<Example>, g: Group, line: real, side: Side, bin: nat)
    requires WithHistory(folds)
    ensures forall i :: 0 <= i < |Members(folds, g, line, side, bin)| ==>
      bin as real / 10.0 <= Members(folds, g, line, side, bin)[i] <= (bin + 1) as real / 10.0
  {
    if folds != [] {
      var n := |folds| - 1;
      MembersInBin(folds[..n], g, line, side, bin);
      CaseInBin(folds[n], line, side);
    }
  }

  function Sum(values: seq<real>): real {
    if values == [] then 0.0 else Sum(values[..|values| - 1]) + values[|values| - 1]
  }

  function Mean(values: seq<real>): Option<real> {
    if values == [] then None else Some(Sum(values) / |values| as real)
  }

  ghost function Repeated(x: real, n: nat): real {
    if n == 0 then 0.0 else Repeated(x, n - 1) + x
  }

  lemma OneMoreTime(x: real, n: nat)
    ensures x * (n + 1) as real == x * n as real + x
  {
    assert (n + 1) as real == n as real + 1.0;
  }

  lemma {:induction false} RepeatedIsProduct(x: real, n: nat)
    ensures Repeated(x, n) == x * n as real
  {
    if n > 0 {
      RepeatedIsProduct(x, n - 1);
      OneMoreTime(x, n - 1);
    }
  }

  lemma {:induction false} SumBetween(values: seq<real>, lo: real, hi: real)
    requires forall i :: 0 <= i < |values| ==> lo <= values[i] <= hi
    ensures Repeated(lo, |values|) <= Sum(values) <= Repeated(hi, |values|)
  {
    if values != [] {
      SumBetween(values[..|values| - 1], lo, hi);
    }
  }

  lemma LessWhenScaled(a: real, b: real, n: real)
    requires n > 0.0 && a * n <= b * n
    ensures a <= b
  {
    if a > b {
      PositiveProduct(a - b, n);
    }
  }

  lemma AtLeast(sum: real, n: nat, lo: real)
    requires n > 0 && Repeated(lo, n) <= sum
    ensures lo <= sum / n as real
  {
    Undivided(sum, n as real);
    RepeatedIsProduct(lo, n);
    LessWhenScaled(lo, sum / n as real, n as real);
  }

  lemma AtMost(sum: real, n: nat, hi: real)
    requires n > 0 && sum <= Repeated(hi, n)
    ensures sum / n as real <= hi
  {
    Undivided(sum, n as real);
    RepeatedIsProduct(hi, n);
    LessWhenScaled(sum / n as real, hi, n as real);
  }

  lemma MeanBetween(values: seq<real>, lo: real, hi: real)
    requires values != [] && forall i :: 0 <= i < |values| ==> lo <= values[i] <= hi
    ensures lo <= Mean(values).value <= hi
  {
    SumBetween(values, lo, hi);
    AtLeast(Sum(values), |values|, lo);
    AtMost(Sum(values), |values|, hi);
  }

  lemma {:induction false} SumsAdd(a: seq<real>, b: seq<real>)
    ensures Sum(a + b) == Sum(a) + Sum(b)
  {
    if b == [] {
      assert a + b == a;
    } else {
      SumsAdd(a, b[..|b| - 1]);
      assert (a + b)[..|a + b| - 1] == a + b[..|b| - 1];
    }
  }

  /** Two groups of values put together weigh what they weigh apart; with the bounds above this
      leaves one mean. */
  lemma MeansJoin(a: seq<real>, b: seq<real>)
    requires a != [] && b != []
    ensures Mean(a + b).value * |a + b| as real == Mean(a).value * |a| as real + Mean(b).value * |b| as real
  {
    SumsAdd(a, b);
    Undivided(Sum(a), |a| as real);
    Undivided(Sum(b), |b| as real);
    Undivided(Sum(a + b), |a + b| as real);
  }

  /** The mean probability of a non-empty bin lies within the bin's bounds. */
  lemma MeanWithinBin(folds: seq<Example>, g: Group, line: real, side: Side, bin: nat)
    requires WithHistory(folds) && Members(folds, g, line, side, bin) != []
    ensures bin as real / 10.0 <= Mean(Members(folds, g, line, side, bin)).value <= (bin + 1) as real / 10.0
  {
    MembersInBin(folds, g, line, side, bin);
    MeanBetween(Members(folds, g, line, side, bin), bin as real / 10.0, (bin + 1) as real / 10.0);
  }
}
