/** One collector run working off the rows it claimed: every row ends in exactly one counter of
    the summary, and every upstream fetch is charged exactly once, whichever of its calls throw. */
module Collector {
  import opened Sorting
  import opened Wrappers
  import Checkpoints

  /** What a guarded update says: it changed the row, the lease was lost, or it threw. */
  datatype Reply = Updated | Lost | Threw

  datatype Upstream =
    | Answered(cost: Option<nat>, capturedAt: int)
    | HttpRefused(cost: Option<nat>)
    | Broke

  /** Everything the world has to say about one claimed row: clocks and replies. */
  datatype Turn = Turn(
    kickoff: int,
    windowEnd: int,
    beforeFetch: int,
    skipLate: Reply,
    upstream: Upstream,
    skipKickoff: Reply,
    persistThrows: bool,
    complete: Reply,
    failedAt: int,
    settle: Reply)

  datatype Summary = Summary(
    claimed: nat,
    completed: nat,
    failed: nat,
    skipped: nat,
    leaseLost: nat,
    knownCredits: nat,
    unknownCosts: nat)

  predicate Fetches(turn: Turn) {
    turn.beforeFetch < turn.kickoff && turn.beforeFetch < turn.windowEnd
  }

  function UpstreamCost(upstream: Upstream): Option<nat> {
    if upstream.Broke? then None else upstream.cost
  }

  /** Credits of the fetches whose cost the upstream stated, over all rows. */
  function KnownCredits(turns: seq<Turn>): nat {
    if turns == [] then 0
    else
      var last := turns[|turns| - 1];
      KnownCredits(turns[..|turns| - 1])
      + if Fetches(last) && UpstreamCost(last.upstream).Some? then UpstreamCost(last.upstream).value else 0
  }

  function CountFetches(turns: seq<Turn>): nat {
    if turns == [] then 0
    else CountFetches(turns[..|turns| - 1]) + if Fetches(turns[|turns| - 1]) then 1 else 0
  }

  predicate Unpriced(turn: Turn) {
    Fetches(turn) && UpstreamCost(turn.upstream).None?
  }

  function CountUnpriced(turns: seq<Turn>): nat {
    if turns == [] then 0
    else CountUnpriced(turns[..|turns| - 1]) + if Unpriced(turns[|turns| - 1]) then 1 else 0
  }

  /** A row is completed only if its response came before kickoff and was stored. */
  predicate Completes(turn: Turn) {
    && Fetches(turn) && turn.upstream.Answered? && turn.upstream.capturedAt < turn.kickoff
    && !turn.persistThrows && turn.complete.Updated?
  }

  function CountCompleted(turns: seq<Turn>): nat {
    if turns == [] then 0
    else CountCompleted(turns[..|turns| - 1]) + if Completes(turns[|turns| - 1]) then 1 else 0
  }

  /** The fetch or what follows it throws, so the row is settled by the error path. */
  predicate Throws(turn: Turn) {
    && Fetches(turn)
    && (turn.upstream.Answered? ==>
          if turn.upstream.capturedAt >= turn.kickoff then turn.skipKickoff.Threw?
          else turn.persistThrows || turn.complete.Threw?)
  }

  predicate AnsweredLate(turn: Turn) {
    Fetches(turn) && turn.upstream.Answered? && turn.upstream.capturedAt >= turn.kickoff
  }

  /** A retry after the delay would still come before the window ends and before kickoff. */
  predicate CanRetry(turn: Turn, retryDelayMs: nat) {
    turn.failedAt + retryDelayMs < turn.windowEnd && turn.failedAt + retryDelayMs < turn.kickoff
  }

  /** A row fails only if its fetch throws while there is time for another one. */
  predicate Fails(turn: Turn, retryDelayMs: nat) {
    Throws(turn) && CanRetry(turn, retryDelayMs) && turn.settle.Updated?
  }

  /** A row is skipped if it is too late to fetch it, to use its response, or to try again. */
  predicate Skips(turn: Turn, retryDelayMs: nat) {
    || (!Fetches(turn) && turn.skipLate.Updated?)
    || (AnsweredLate(turn) && turn.skipKickoff.Updated?)
    || (Throws(turn) && !CanRetry(turn, retryDelayMs) && turn.settle.Updated?)
  }

  /** Whatever becomes of a row, the run may find that it has lost it. */
  predicate Loses(turn: Turn) {
    || (!Fetches(turn) && turn.skipLate.Lost?)
    || (AnsweredLate(turn) && turn.skipKickoff.Lost?)
    || (Fetches(turn) && !AnsweredLate(turn) && !Throws(turn) && turn.complete.Lost?)
    || (Throws(turn) && turn.settle.Lost?)
  }

  /** An update outside the guarded part throws. */
  predicate Aborts(turn: Turn) {
    (!Fetches(turn) && turn.skipLate.Threw?) || (Throws(turn) && turn.settle.Threw?)
  }

  /** A row is fetched exactly if a run that claims it right then could do so before kickoff, and
      goes back to the table for another attempt exactly if a run that claims it there at its
      retry time can. */
  lemma TurnsAreTimely(turn: Turn, retryDelayMs: nat, row: Checkpoints.Row)
    requires row.windowEnd == turn.windowEnd && row.kickoff == turn.kickoff
    requires row.dueAt <= turn.beforeFetch <= turn.failedAt && row.attempts < row.maxAttempts
    ensures Fetches(turn) <==>
      Checkpoints.Due(row, turn.beforeFetch, row.rank, row.markets) && turn.beforeFetch < row.kickoff
    ensures var at := turn.failedAt + retryDelayMs;
      CanRetry(turn, retryDelayMs) <==>
        && Checkpoints.MayBeClaimed(map[0 := Checkpoints.FailedRow(row, at)], 0, at, row.rank, row.markets)
        && at < row.kickoff
  {
  }

  ghost function FailsAfter(retryDelayMs: nat): Turn -> bool {
    (turn: Turn) => Fails(turn, retryDelayMs)
  }

  function CountFailed(turns: seq<Turn>, retryDelayMs: nat): nat {
    if turns == [] then 0
    else CountFailed(turns[..|turns| - 1], retryDelayMs) + if Fails(turns[|turns| - 1], retryDelayMs) then 1 else 0
  }

  ghost function SkipsAfter(retryDelayMs: nat): Turn -> bool {
    (turn: Turn) => Skips(turn, retryDelayMs)
  }

  function CountSkipped(turns: seq<Turn>, retryDelayMs: nat): nat {
    if turns == [] then 0
    else CountSkipped(turns[..|turns| - 1], retryDelayMs) + if Skips(turns[|turns| - 1], retryDelayMs) then 1 else 0
  }

  function CountLost(turns: seq<Turn>): nat {
    if turns == [] then 0
    else CountLost(turns[..|turns| - 1]) + if Loses(turns[|turns| - 1]) then 1 else 0
  }

  /** The counts are how many rows were fetched, completed and so on. */
  lemma {:induction false} CountsAre(turns: seq<Turn>, retryDelayMs: nat)
    ensures CountFetches(turns) == HowMany(Fetches, turns) && CountUnpriced(turns) == HowMany(Unpriced, turns)
    ensures CountCompleted(turns) == HowMany(Completes, turns) && CountLost(turns) == HowMany(Loses, turns)
    ensures CountFailed(turns, retryDelayMs) == HowMany(FailsAfter(retryDelayMs), turns)
    ensures CountSkipped(turns, retryDelayMs) == HowMany(SkipsAfter(retryDelayMs), turns)
  {
    if turns == [] {
      NoTurns(retryDelayMs);
    } else {
      CountsAre(turns[..|turns| - 1], retryDelayMs);
      OneMoreTurn(turns, retryDelayMs);
    }
  }

  lemma NoTurns(retryDelayMs: nat)
    ensures HowMany(Fetches, []) == 0 && HowMany(Unpriced, []) == 0 && HowMany(Completes, []) == 0
    ensures HowMany(FailsAfter(retryDelayMs), []) == 0 && HowMany(SkipsAfter(retryDelayMs), []) == 0
    ensures HowMany(Loses, []) == 0
  {
    NoneAreSuch(Fetches);
    NoneAreSuch(Unpriced);
    NoneAreSuch(Completes);
    NoneAreSuch(FailsAfter(retryDelayMs));
    NoneAreSuch(SkipsAfter(retryDelayMs));
    NoneAreSuch(Loses);
  }

  lemma OneMoreTurn(turns: seq<Turn>, retryDelayMs: nat)
    requires turns != []
    ensures var before, last := turns[..|turns| - 1], turns[|turns| - 1];
      && HowMany(Fetches, turns) == HowMany(Fetches, before) + (if Fetches(last) then 1 else 0)
      && HowMany(Unpriced, turns) == HowMany(Unpriced, before) + (if Unpriced(last) then 1 else 0)
      && HowMany(Completes, turns) == HowMany(Completes, before) + (if Completes(last) then 1 else 0)
      && HowMany(FailsAfter(retryDelayMs), turns)
           == HowMany(FailsAfter(retryDelayMs), before) + (if Fails(last, retryDelayMs) then 1 else 0)
      && HowMany(SkipsAfter(retryDelayMs), turns)
           == HowMany(SkipsAfter(retryDelayMs), before) + (if Skips(last, retryDelayMs) then 1 else 0)
      && HowMany(Loses, turns) == HowMany(Loses, before) + (if Loses(last) then 1 else 0)
  {
    HowManyInit(Fetches, turns);
    HowManyInit(Unpriced, turns);
    HowManyInit(Completes, turns);
    HowManyInit(FailsAfter(retryDelayMs), turns);
    HowManyInit(SkipsAfter(retryDelayMs), turns);
    HowManyInit(Loses, turns);
  }

  /** Every row ends in one way. */
  lemma OneOutcome(turn: Turn, retryDelayMs: nat)
    ensures (if Completes(turn) then 1 else 0) + (if Fails(turn, retryDelayMs) then 1 else 0)
          + (if Skips(turn, retryDelayMs) then 1 else 0) + (if Loses(turn) then 1 else 0)
          + (if Aborts(turn) then 1 else 0) == 1
  {
  }

  function Charged(s: Summary, cost: Option<nat>): Summary {
    if cost.None? then s.(unknownCosts := s.unknownCosts + 1)
    else s.(knownCredits := s.knownCredits + cost.value)
  }

  function One(b: bool): nat {
    if b then 1 else 0
  }

  function SkippedOrLost(s: Summary, reply: Reply): Summary {
    if reply.Updated? then s.(skipped := s.skipped + 1) else s.(leaseLost := s.leaseLost + 1)
  }

  function Used(s: Summary, turn: Turn): Summary {
    if Completes(turn) then s.(completed := s.completed + 1)
    else if AnsweredLate(turn) then SkippedOrLost(s, turn.skipKickoff)
    else s.(leaseLost := s.leaseLost + 1)
  }

  function Settled(s: Summary, turn: Turn, retryDelayMs: nat): Summary {
    if turn.settle.Updated? && CanRetry(turn, retryDelayMs) then s.(failed := s.failed + 1)
    else SkippedOrLost(s, turn.settle)
  }

  /** The error path: a row that can be tried again fails, any other one is skipped. */
  method Settle(s: Summary, turn: Turn, retryDelayMs: nat) returns (r: Option<Summary>)
    ensures r.None? <==> turn.settle.Threw?
    ensures r.Some? ==> r.value == Settled(s, turn, retryDelayMs)
  {
    var retryAt := turn.failedAt + retryDelayMs;
    var exhausted := retryAt >= turn.windowEnd || retryAt >= turn.kickoff;
    match turn.settle {
      case Threw => return None;
      case Updated => return Some(if exhausted then s.(skipped := s.skipped + 1) else s.(failed := s.failed + 1));
      case Lost => return Some(s.(leaseLost := s.leaseLost + 1));
    }
  }

  /** What is done with a response: it comes too late, or is stored and completes the row. */
  method UseResponse(s: Summary, turn: Turn) returns (t: Summary, threw: bool)
    requires Fetches(turn) && turn.upstream.Answered?
    ensures threw <==> Throws(turn)
    ensures t == if threw then s else Used(s, turn)
  {
    t, threw := s, false;
    if turn.upstream.capturedAt >= turn.kickoff {
      match turn.skipKickoff {
        case Threw => threw := true;
        case Updated => t := t.(skipped := t.skipped + 1);
        case Lost => t := t.(leaseLost := t.leaseLost + 1);
      }
    } else if turn.persistThrows {
      threw := true;
    } else {
      match turn.complete {
        case Threw => threw := true;
        case Updated => t := t.(completed := t.completed + 1);
        case Lost => t := t.(leaseLost := t.leaseLost + 1);
      }
    }
  }

  /** A row whose time is over before the fetch is skipped. */
  method SkipLate(s: Summary, turn: Turn) returns (r: Option<Summary>)
    ensures r.None? <==> turn.skipLate.Threw?
    ensures r.Some? ==> r.value == SkippedOrLost(s, turn.skipLate)
  {
    match turn.skipLate {
      case Threw => return None;
      case Updated => return Some(s.(skipped := s.skipped + 1));
      case Lost => return Some(s.(leaseLost := s.leaseLost + 1));
    }
  }

  /** The counters after one turn. */
  predicate Counts(s: Summary, turn: Turn, retryDelayMs: nat, t: Summary) {
    && t.claimed == s.claimed
    && t.completed == s.completed + One(Completes(turn))
    && t.failed == s.failed + One(Fails(turn, retryDelayMs))
    && t.skipped == s.skipped + One(Skips(turn, retryDelayMs))
    && t.leaseLost == s.leaseLost + One(Loses(turn))
    && Charges(s, turn, t)
  }

  predicate Charges(s: Summary, turn: Turn, t: Summary) {
    var cost := UpstreamCost(turn.upstream);
    && t.unknownCosts == s.unknownCosts + One(Fetches(turn) && cost.None?)
    && t.knownCredits == s.knownCredits + if Fetches(turn) && cost.Some? then cost.value else 0
  }

  lemma LateCounts(s: Summary, turn: Turn, retryDelayMs: nat)
    requires !Fetches(turn) && !turn.skipLate.Threw?
    ensures Counts(s, turn, retryDelayMs, SkippedOrLost(s, turn.skipLate))
  {
  }

  lemma UsedCounts(s: Summary, turn: Turn, retryDelayMs: nat)
    requires Fetches(turn) && turn.upstream.Answered? && !Throws(turn)
    ensures Counts(s, turn, retryDelayMs, Used(Charged(s, turn.upstream.cost), turn))
  {
  }

  lemma SettledCounts(s: Summary, turn: Turn, retryDelayMs: nat)
    requires Throws(turn) && !turn.settle.Threw?
    ensures Counts(s, turn, retryDelayMs, Settled(Charged(s, UpstreamCost(turn.upstream)), turn, retryDelayMs))
  {
  }

  /** One turn of the loop.  None: an update outside the guarded part throws. */
  method RunTurn(s: Summary, turn: Turn, retryDelayMs: nat) returns (r: Option<Summary>, costsRecorded: nat)
    ensures r.None? <==> Aborts(turn)
    ensures costsRecorded == One(Fetches(turn))
    ensures r.Some? ==> Counts(s, turn, retryDelayMs, r.value)
  {
    if turn.beforeFetch >= turn.kickoff || turn.beforeFetch >= turn.windowEnd {
      r := SkipLate(s, turn);
      if r.Some? {
        LateCounts(s, turn, retryDelayMs);
      }
      return r, 0;
    }
    costsRecorded := 0;
    var t, threw := s, true;
    if turn.upstream.Answered? {
      t := Charged(t, turn.upstream.cost);
      costsRecorded := costsRecorded + 1;
      t, threw := UseResponse(t, turn);
    }
    if !threw {
      UsedCounts(s, turn, retryDelayMs);
      return Some(t), costsRecorded;
    }
    if costsRecorded == 0 {
      t := Charged(t, UpstreamCost(turn.upstream));
      costsRecorded := costsRecorded + 1;
    }
    assert t == Charged(s, UpstreamCost(turn.upstream)) && Throws(turn);
    r := Settle(t, turn, retryDelayMs);
    if r.Some? {
      SettledCounts(s, turn, retryDelayMs);
    }
  }

  /** Every counter is the number of rows that end that way. */
  predicate Tallied(s: Summary, turns: seq<Turn>, retryDelayMs: nat) {
    && |turns| == s.completed + s.failed + s.skipped + s.leaseLost
    && s.completed == CountCompleted(turns)
    && s.failed == CountFailed(turns, retryDelayMs)
    && s.skipped == CountSkipped(turns, retryDelayMs)
    && s.leaseLost == CountLost(turns)
    && s.unknownCosts == CountUnpriced(turns)
    && s.knownCredits == KnownCredits(turns)
  }

  lemma TallyGrows(s: Summary, t: Summary, turns: seq<Turn>, n: nat, retryDelayMs: nat)
    requires n < |turns| && Tallied(s, turns[..n], retryDelayMs)
    requires !Aborts(turns[n]) && Counts(s, turns[n], retryDelayMs, t)
    ensures Tallied(t, turns[..n + 1], retryDelayMs)
  {
    assert turns[..n + 1][..n] == turns[..n];
    OneOutcome(turns[n], retryDelayMs);
  }

  /** What the run has counted and charged after its first `n` rows. */
  ghost predicate SoFar(turns: seq<Turn>, n: nat, s: Summary, costsRecorded: nat, retryDelayMs: nat) {
    && n <= |turns| && s.claimed == |turns|
    && s.completed + s.failed + s.skipped + s.leaseLost == n
    && Tallied(s, turns[..n], retryDelayMs)
    && costsRecorded == CountFetches(turns[..n])
  }

  lemma NothingYet(turns: seq<Turn>, retryDelayMs: nat)
    ensures SoFar(turns, 0, Summary(|turns|, 0, 0, 0, 0, 0, 0), 0, retryDelayMs)
  {
    assert turns[..0] == [];
  }

  lemma OneRowMore(turns: seq<Turn>, n: nat, s: Summary, t: Summary, costsRecorded: nat, retryDelayMs: nat)
    requires n < |turns| && SoFar(turns, n, s, costsRecorded, retryDelayMs)
    requires !Aborts(turns[n]) && Counts(s, turns[n], retryDelayMs, t)
    ensures SoFar(turns, n + 1, t, costsRecorded + One(Fetches(turns[n])), retryDelayMs)
  {
    TallyGrows(s, t, turns, n, retryDelayMs);
    OneMoreFetch(turns, n);
    OneOutcome(turns[n], retryDelayMs);
  }

  lemma AllRows(turns: seq<Turn>, s: Summary, costsRecorded: nat, retryDelayMs: nat)
    requires SoFar(turns, |turns|, s, costsRecorded, retryDelayMs)
    ensures Tallied(s, turns, retryDelayMs) && costsRecorded == CountFetches(turns)
  {
    assert turns[..|turns|] == turns;
  }

  lemma CostsSoFar(turns: seq<Turn>, n: nat, s: Summary, costsRecorded: nat, retryDelayMs: nat, recorded: nat)
    requires n < |turns| && SoFar(turns, n, s, costsRecorded, retryDelayMs) && recorded <= One(Fetches(turns[n]))
    ensures costsRecorded + recorded <= CountFetches(turns)
  {
    OneMoreFetch(turns, n);
    CountsGrow(turns, n + 1);
  }

  /** Runs over the claimed rows.  The run returns a summary unless an update outside the
      guarded part throws, and then the counters are as follows. */
  method RunClaims(turns: seq<Turn>, retryDelayMs: nat) returns (result: Option<Summary>, costsRecorded: nat)
    ensures result.Some? <==> forall n :: 0 <= n < |turns| ==> !Aborts(turns[n])
    ensures result.Some? ==>
      var s := result.value;
      && s.claimed == |turns|
      && s.claimed == s.completed + s.failed + s.skipped + s.leaseLost
      && Tallied(s, turns, retryDelayMs)
      && costsRecorded == CountFetches(turns)
    ensures costsRecorded <= CountFetches(turns)
  {
    var s := Summary(|turns|, 0, 0, 0, 0, 0, 0);
    costsRecorded := 0;
    NothingYet(turns, retryDelayMs);
    for n := 0 to |turns|
      invariant forall k :: 0 <= k < n ==> !Aborts(turns[k])
      invariant SoFar(turns, n, s, costsRecorded, retryDelayMs)
    {
      var next, recorded := RunTurn(s, turns[n], retryDelayMs);
      CostsSoFar(turns, n, s, costsRecorded, retryDelayMs, recorded);
      if next.None? {
        return None, costsRecorded + recorded;
      }
      OneRowMore(turns, n, s, next.value, costsRecorded, retryDelayMs);
      s, costsRecorded := next.value, costsRecorded + recorded;
    }
    AllRows(turns, s, costsRecorded, retryDelayMs);
    result := Some(s);
  }

  lemma {:induction false} CountsGrow(turns: seq<Turn>, n: nat)
    requires n <= |turns|
    ensures CountFetches(turns[..n]) <= CountFetches(turns)
    decreases |turns| - n
  {
    if n == |turns| {
      assert turns[..n] == turns;
    } else {
      OneMoreFetch(turns, n);
      CountsGrow(turns, n + 1);
    }
  }

  lemma OneMoreFetch(turns: seq<Turn>, n: nat)
    requires n < |turns|
    ensures CountFetches(turns[..n + 1]) == CountFetches(turns[..n]) + (if Fetches(turns[n]) then 1 else 0)
  {
    assert turns[..n + 1][..n] == turns[..n];
  }
}
