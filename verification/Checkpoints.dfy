/** The odds-collection checkpoint table.  The statements that move a row between its states are
    methods of a class; any number of collector runs that claim rows, fetch, report back and may
    crash are a state machine over them. */
module Checkpoints {
  import opened Wrappers

  datatype Status = Pending | Claimed | Completed | Failed | Skipped

  datatype Row = Row(
    status: Status,
    owner: Option<nat>,
    expiresAt: Option<int>,
    attempts: nat,
    maxAttempts: nat,
    dueAt: int,
    windowEnd: int,
    kickoff: int,
    rank: nat,
    markets: nat,
    nextAttemptAt: Option<int>)

  type Table = map<nat, Row>

  predicate Open(status: Status) {
    status.Pending? || status.Failed?
  }

  predicate Terminal(status: Status) {
    status.Completed? || status.Skipped?
  }

  predicate LeaseExpired(row: Row, now: int) {
    row.status.Claimed? && row.expiresAt.Some? && row.expiresAt.value <= now
  }

  /** Rows that the claim statement gives up on. */
  predicate Lapsed(row: Row, now: int) {
    && (Open(row.status) || LeaseExpired(row, now))
    && row.dueAt <= now
    && (row.windowEnd <= now || row.attempts >= row.maxAttempts)
  }

  /** Rows that it may claim. */
  predicate Eligible(row: Row, now: int, maxRank: nat, maxCost: nat) {
    && row.dueAt <= now < row.windowEnd
    && row.attempts < row.maxAttempts
    && row.rank <= maxRank
    && row.markets <= maxCost
    && (|| row.status.Pending?
        || (row.status.Failed? && (row.nextAttemptAt.None? || row.nextAttemptAt.value <= now))
        || LeaseExpired(row, now))
  }

  function SkippedRow(row: Row): Row {
    row.(status := Skipped, owner := None, expiresAt := None)
  }

  function ClaimedRow(row: Row, owner: nat, now: int, leaseMs: int): Row {
    row.(status := Claimed, owner := Some(owner), expiresAt := Some(now + leaseMs),
         attempts := row.attempts + 1, nextAttemptAt := None)
  }

  predicate OwnedBy(table: Table, id: nat, owner: nat) {
    id in table && table[id].status.Claimed? && table[id].owner == Some(owner)
  }

  function CompletedRow(row: Row): Row {
    row.(status := Completed, owner := None, expiresAt := None)
  }

  function FailedRow(row: Row, retryAt: int): Row {
    row.(status := Failed, owner := None, expiresAt := None, nextAttemptAt := Some(retryAt))
  }

  /** What a plan may say about a row; anything else is refused before the statement runs. */
  predicate PlanOk(plan: Row) {
    plan.maxAttempts > 0 && plan.rank > 0 && plan.markets > 0 && plan.dueAt < plan.windowEnd <= plan.kickoff
  }

  /** A planned row is inserted pending; an existing one is updated only while it is open. */
  function Upserted(table: Table, id: nat, plan: Row): Table {
    if id !in table then
      table[id := plan.(status := Pending, owner := None, expiresAt := None, attempts := 0, nextAttemptAt := None)]
    else if Open(table[id].status) then
      table[id := table[id].(kickoff := plan.kickoff, markets := plan.markets, dueAt := plan.dueAt,
                             windowEnd := plan.windowEnd, rank := plan.rank, maxAttempts := plan.maxAttempts)]
    else table
  }

  // ---------------------------------------------------------------- the claim statement

  /** Both parts of the statement see the table as it was before. */
  function ClaimRow(row: Row, picked: bool, owner: nat, now: int, leaseMs: int): Row {
    if Lapsed(row, now) then SkippedRow(row)
    else if picked then ClaimedRow(row, owner, now, leaseMs)
    else row
  }

  function ClaimTable(table: Table, picks: seq<nat>, owner: nat, now: int, leaseMs: int): Table {
    map id | id in table :: ClaimRow(table[id], id in picks, owner, now, leaseMs)
  }

  predicate Before(table: Table, a: nat, b: nat)
    requires a in table && b in table
  {
    || table[a].rank < table[b].rank
    || (table[a].rank == table[b].rank && table[a].dueAt < table[b].dueAt)
    || (table[a].rank == table[b].rank && table[a].dueAt == table[b].dueAt && a < b)
  }

  function EligibleIds(table: Table, now: int, maxRank: nat, maxCost: nat): set<nat> {
    set id | id in table && Eligible(table[id], now, maxRank, maxCost)
  }

  function LapsedIds(table: Table, now: int): set<nat> {
    set id | id in table && Lapsed(table[id], now)
  }

  /** `picks` are the first `limit` of `ids` in claim order. */
  ghost predicate FirstOf(table: Table, ids: set<nat>, limit: nat, picks: seq<nat>)
    requires ids <= table.Keys
  {
    && (forall i :: 0 <= i < |picks| ==> picks[i] in ids)
    && (forall i, j :: 0 <= i < j < |picks| ==> Before(table, picks[i], picks[j]))
    && |picks| == (if |ids| < limit then |ids| else limit)
    && (forall i, id :: 0 <= i < |picks| && id in ids && id !in picks ==> Before(table, picks[i], id))
  }

  /** A claim takes the eligible rows of the lowest rank first, of these the longest due, and of
      these the first by id; it leaves one only if it has its number. */
  lemma ClaimsFirst(table: Table, now: int, limits: Limits, locked: set<nat>, picks: seq<nat>, mine: nat, other: nat)
    requires Claimable(table, now, limits, locked, picks) && mine in picks
    requires other in EligibleIds(table, now, limits.maxRank, limits.maxCost) - locked && other !in picks
    ensures mine in table && other in table && |picks| == limits.claimLimit
    ensures table[mine].rank <= table[other].rank
    ensures table[mine].rank == table[other].rank ==> table[mine].dueAt <= table[other].dueAt
    ensures table[mine].rank == table[other].rank && table[mine].dueAt == table[other].dueAt ==> mine < other
  {
    var i :| 0 <= i < |picks| && picks[i] == mine;
    assert Before(table, picks[i], other);
    var ids := EligibleIds(table, now, limits.maxRank, limits.maxCost) - locked;
    if |ids| < limits.claimLimit {
      AllAreTaken(ids, picks, table);
    }
  }

  lemma {:induction false} AllAreTaken(ids: set<nat>, picks: seq<nat>, table: Table)
    requires ids <= table.Keys && |picks| == |ids|
    requires forall i :: 0 <= i < |picks| ==> picks[i] in ids
    requires forall i, j :: 0 <= i < j < |picks| ==> Before(table, picks[i], picks[j])
    ensures forall id :: id in ids ==> id in picks
    decreases |picks|
  {
    if picks != [] {
      var last := picks[|picks| - 1];
      AllAreTaken(ids - {last}, picks[..|picks| - 1], table);
      assert picks == picks[..|picks| - 1] + [last];
    }
  }

  lemma LapsedOrEligible(row: Row, now: int, maxRank: nat, maxCost: nat)
    ensures !(Lapsed(row, now) && Eligible(row, now, maxRank, maxCost))
  {
  }

  /** The table with the statements that change it in place. */
  class CheckpointTable {
    var rows: Table

    constructor ()
      ensures rows == map[]
    {
      rows := map[];
    }

    /** Skips what has lapsed and claims the first `limit` eligible rows that no other
        transaction has locked. */
    method ClaimDue(owner: nat, now: int, leaseMs: int, limit: nat, maxRank: nat, maxCost: nat, locked: set<nat>)
      returns (picks: seq<nat>, skippedCount: nat)
      modifies this
      ensures FirstOf(old(rows), EligibleIds(old(rows), now, maxRank, maxCost) - locked, limit, picks)
      ensures rows.Keys == old(rows).Keys
      ensures forall id :: id in rows ==>
        rows[id] ==
          if Lapsed(old(rows)[id], now) then SkippedRow(old(rows)[id])
          else if id in picks then ClaimedRow(old(rows)[id], owner, now, leaseMs)
          else old(rows)[id]
      ensures forall id :: id in picks ==> !Lapsed(old(rows)[id], now)
      ensures forall id :: id in rows && rows[id].dueAt <= now && rows[id].windowEnd <= now ==>
                !Open(rows[id].status) && !LeaseExpired(rows[id], now)
      ensures skippedCount == |LapsedIds(old(rows), now)|
    {
      var before := rows;
      var eligible := EligibleIds(before, now, maxRank, maxCost) - locked;
      picks := FirstIds(before, eligible, limit);
      forall id | id in picks
        ensures !Lapsed(before[id], now)
      {
        assert id in eligible;
      }
      rows := ClaimTable(before, picks, owner, now, leaseMs);
      skippedCount := |LapsedIds(before, now)|;
    }

    method Complete(id: nat, owner: nat) returns (updated: bool)
      modifies this
      ensures updated <==> OwnedBy(old(rows), id, owner)
      ensures rows == if updated then old(rows)[id := CompletedRow(old(rows)[id])] else old(rows)
    {
      updated := id in rows && rows[id].status.Claimed? && rows[id].owner == Some(owner);
      if updated {
        rows := rows[id := rows[id].(status := Completed, owner := None, expiresAt := None)];
      }
    }

    method Fail(id: nat, owner: nat, retryAt: int) returns (updated: bool)
      modifies this
      ensures updated <==> OwnedBy(old(rows), id, owner)
      ensures rows == if updated then old(rows)[id := FailedRow(old(rows)[id], retryAt)] else old(rows)
    {
      updated := id in rows && rows[id].status.Claimed? && rows[id].owner == Some(owner);
      if updated {
        rows := rows[id := rows[id].(status := Failed, owner := None, expiresAt := None,
            nextAttemptAt := Some(retryAt))];
      }
    }

    method Skip(id: nat, owner: nat) returns (updated: bool)
      modifies this
      ensures updated <==> OwnedBy(old(rows), id, owner)
      ensures rows == if updated then old(rows)[id := SkippedRow(old(rows)[id])] else old(rows)
    {
      updated := id in rows && rows[id].status.Claimed? && rows[id].owner == Some(owner);
      if updated {
        rows := rows[id := rows[id].(status := Skipped, owner := None, expiresAt := None)];
      }
    }
  }

  method FirstId(table: Table, ids: set<nat>) returns (first: nat)
    requires ids != {} && ids <= table.Keys
    ensures first in ids && forall id :: id in ids && id != first ==> Before(table, first, id)
  {
    first :| first in ids;
    var rest := ids - {first};
    while rest != {}
      invariant rest < ids && first in ids && first !in rest
      invariant forall id :: id in ids && id !in rest && id != first ==> Before(table, first, id)
      decreases rest
    {
      var id :| id in rest;
      if Before(table, id, first) {
        first := id;
      }
      rest := rest - {id};
    }
  }

  method FirstIds(table: Table, ids: set<nat>, limit: nat) returns (picks: seq<nat>)
    requires ids <= table.Keys
    ensures FirstOf(table, ids, limit, picks)
  {
    picks := [];
    var rest := ids;
    while |picks| < limit && rest != {}
      invariant rest <= ids
      invariant forall i :: 0 <= i < |picks| ==> picks[i] in ids
      invariant forall id :: id in ids ==> id in rest || id in picks
      invariant forall id :: id in picks ==> id !in rest
      invariant forall i, j :: 0 <= i < j < |picks| ==> Before(table, picks[i], picks[j])
      invariant forall i, id :: 0 <= i < |picks| && id in rest ==> Before(table, picks[i], id)
      invariant |picks| + |rest| == |ids| && |picks| <= limit
      decreases rest
    {
      var first := FirstId(table, rest);
      assert forall id :: id in rest - {first} ==> Before(table, first, id);
      picks, rest := picks + [first], rest - {first};
    }
  }

  // ---------------------------------------------------------------- the quota caps

  datatype Limits = Limits(maxRank: nat, maxCost: nat, claimLimit: nat)

  /** The caps one run puts on its claim, from what is left of the upstream quota. */
  function QuotaLimits(remaining: Option<nat>, reserve: nat, marketCost: nat, claimLimit: nat): Limits {
    var scarceOrUnknown := remaining.None? || remaining.value <= reserve + marketCost;
    Limits(
      if remaining == Some(0) then 0
      else if remaining.None? || remaining.value <= reserve then 20
      else if remaining.value <= reserve + marketCost then 30
      else 40,
      if remaining.None? then marketCost else remaining.value,
      if scarceOrUnknown then 1 else claimLimit)
  }

  /** The rows a claim statement picks when another transaction has `locked` locked. */
  ghost predicate Claimable(table: Table, now: int, limits: Limits, locked: set<nat>, picks: seq<nat>) {
    FirstOf(table, EligibleIds(table, now, limits.maxRank, limits.maxCost) - locked, limits.claimLimit, picks)
  }

  function TotalMarkets(table: Table, picks: seq<nat>): nat
    requires forall i :: 0 <= i < |picks| ==> picks[i] in table
  {
    if picks == [] then 0
    else TotalMarkets(table, picks[..|picks| - 1]) + table[picks[|picks| - 1]].markets
  }

  /** A run that knows its quota to be scarce claims no more markets than it can pay for, and
      with nothing left it claims nothing. */
  lemma ScarceQuotaIsKept(table: Table, now: int, remaining: nat, reserve: nat, marketCost: nat, claimLimit: nat,
        locked: set<nat>, picks: seq<nat>)
    requires remaining <= reserve + marketCost
    requires forall id :: id in table ==> table[id].rank > 0
    requires Claimable(table, now, QuotaLimits(Some(remaining), reserve, marketCost, claimLimit), locked, picks)
    ensures forall i :: 0 <= i < |picks| ==> picks[i] in table
    ensures TotalMarkets(table, picks) <= remaining
    ensures remaining == 0 ==> picks == []
  {
    if picks != [] {
      assert picks[..0] == [];
      assert picks[0] in table;
    }
  }

  /** Which ranks a run may claim: none without quota, the lowest while the reserve is touched
      or nothing is known, the next while one full set of markets would touch it. */
  lemma RankAllowed(remaining: Option<nat>, reserve: nat, marketCost: nat, claimLimit: nat, rank: nat)
    requires rank > 0
    ensures rank <= QuotaLimits(remaining, reserve, marketCost, claimLimit).maxRank <==>
      && remaining != Some(0) && rank <= 40
      && (rank > 20 ==> remaining.Some? && remaining.value > reserve)
      && (rank > 30 ==> remaining.Some? && remaining.value > reserve + marketCost)
  {
  }

  /** Without knowing the quota a run claims one row, of one full set of markets at most. */
  lemma UnknownQuota(reserve: nat, marketCost: nat, claimLimit: nat, table: Table, now: int, locked: set<nat>,
      picks: seq<nat>)
    requires Claimable(table, now, QuotaLimits(None, reserve, marketCost, claimLimit), locked, picks)
    ensures |picks| <= 1
    ensures forall id :: id in picks ==> id in table && table[id].markets <= marketCost && table[id].rank <= 20
  {
  }

  // ---------------------------------------------------------------- many runs at once

  /** A claimed row as the run that claimed it keeps it. */
  datatype Ticket = Ticket(id: nat, windowEnd: int, kickoff: int)

  /** A run works its tickets off in order; `fetched` says that the upstream fetch for the
      first one has been made. */
  datatype Collector = Collector(todo: seq<Ticket>, fetched: bool)

  datatype Fetch = Fetch(id: nat, run: nat, at: int, ticket: Ticket)

  /** `runs` holds the runs that are still going.  The last three fields are history: who
      ever claimed a row, the largest attempt limit a row ever had, and all fetches made. */
  datatype State = State(
    table: Table,
    runs: map<nat, Collector>,
    nextRun: nat,
    claimants: map<nat, set<nat>>,
    peak: map<nat, nat>,
    fetches: seq<Fetch>)

  /** Times are read from the clock of whoever acts; nothing relates the clocks. */
  datatype Action =
    | Plan(id: nat, plan: Row)
    | Supersede(ids: set<nat>)
    | Claim(now: int, leaseMs: int, maxRank: nat, maxCost: nat, picks: seq<nat>)
    | SkipLate(run: nat, at: int)
    | StartFetch(run: nat, at: int)
    | CompleteHead(run: nat)
    | SkipHead(run: nat)
    | FailHead(run: nat, retryAt: int)
    | Crash(run: nat)

  const INIT := State(map[], map[], 0, map[], map[], [])

  /** Rows locked elsewhere are passed over, so any distinct eligible rows may be picked. */
  ghost predicate Claims(s: State, a: Action) {
    && a.Claim?
    && (forall i :: 0 <= i < |a.picks| ==> a.picks[i] in EligibleIds(s.table, a.now, a.maxRank, a.maxCost))
    && (forall i, j :: 0 <= i < j < |a.picks| ==> a.picks[i] != a.picks[j])
  }

  predicate Busy(s: State, run: nat) {
    run in s.runs && s.runs[run].todo != []
  }

  /** The run's clock says that the first ticket is no longer worth a fetch. */
  predicate TooLate(s: State, run: nat, at: int)
    requires Busy(s, run)
  {
    at >= s.runs[run].todo[0].kickoff || at >= s.runs[run].todo[0].windowEnd
  }

  predicate Fetches(s: State, a: Action) {
    a.StartFetch? && Busy(s, a.run) && !s.runs[a.run].fetched && !TooLate(s, a.run, a.at)
  }

  /** The action reports on the first ticket of its run. */
  predicate Reports(s: State, a: Action) {
    || (a.SkipLate? && Busy(s, a.run) && !s.runs[a.run].fetched && TooLate(s, a.run, a.at))
    || ((a.CompleteHead? || a.SkipHead? || a.FailHead?) && Busy(s, a.run) && s.runs[a.run].fetched)
  }

  function Reported(s: State, a: Action): Table
    requires Reports(s, a)
  {
    var id := s.runs[a.run].todo[0].id;
    if !OwnedBy(s.table, id, a.run) then s.table
    else s.table[id :=
      if a.CompleteHead? then CompletedRow(s.table[id])
      else if a.FailHead? then FailedRow(s.table[id], a.retryAt)
      else SkippedRow(s.table[id])]
  }

  ghost function TableAfter(s: State, a: Action): Table {
    if a.Plan? then (if PlanOk(a.plan) then Upserted(s.table, a.id, a.plan) else s.table)
    else if a.Supersede? then
      map id | id in s.table ::
        if id in a.ids && Open(s.table[id].status)
        then s.table[id].(status := Skipped, nextAttemptAt := None) else s.table[id]
    else if Claims(s, a) then ClaimTable(s.table, a.picks, s.nextRun, a.now, a.leaseMs)
    else if Reports(s, a) then Reported(s, a)
    else s.table
  }

  function Tickets(table: Table, picks: seq<nat>): seq<Ticket>
    requires forall i :: 0 <= i < |picks| ==> picks[i] in table
  {
    seq(|picks|, i requires 0 <= i < |picks| => Ticket(picks[i], table[picks[i]].windowEnd, table[picks[i]].kickoff))
  }

  ghost function RunsAfter(s: State, a: Action): map<nat, Collector> {
    if Claims(s, a) then s.runs[s.nextRun := Collector(Tickets(s.table, a.picks), false)]
    else if Fetches(s, a) then s.runs[a.run := s.runs[a.run].(fetched := true)]
    else if Reports(s, a) then s.runs[a.run := Collector(s.runs[a.run].todo[1..], false)]
    else if a.Crash? then s.runs - {a.run}
    else s.runs
  }

  function ClaimantsOf(claimants: map<nat, set<nat>>, id: nat): set<nat> {
    if id in claimants then claimants[id] else {}
  }

  ghost function Next(s: State, a: Action): State {
    State(
      TableAfter(s, a),
      RunsAfter(s, a),
      if Claims(s, a) then s.nextRun + 1 else s.nextRun,
      if Claims(s, a)
        then (map id | id in s.table :: ClaimantsOf(s.claimants, id) + if id in a.picks then {s.nextRun} else {})
        else s.claimants,
      if a.Plan? && PlanOk(a.plan)
        then s.peak[a.id := if a.id in s.peak && s.peak[a.id] > a.plan.maxAttempts then s.peak[a.id]
            else a.plan.maxAttempts]
        else s.peak,
      if Fetches(s, a)
        then s.fetches + [Fetch(s.runs[a.run].todo[0].id, a.run, a.at, s.runs[a.run].todo[0])]
        else s.fetches)
  }

  ghost function Run(actions: seq<Action>): State {
    if actions == [] then INIT
    else Next(Run(actions[..|actions| - 1]), actions[|actions| - 1])
  }

  // ---------------------------------------------------------------- the invariant

  ghost predicate RowOk(s: State, id: nat)
    requires id in s.table
  {
    var row := s.table[id];
    && (row.status.Claimed? <==> row.owner.Some?)
    && (row.status.Claimed? <==> row.expiresAt.Some?)
    && row.rank > 0 && row.dueAt < row.windowEnd <= row.kickoff
    && id in s.peak && row.maxAttempts <= s.peak[id] && row.attempts <= s.peak[id]
    && |ClaimantsOf(s.claimants, id)| == row.attempts
    && forall run :: run in ClaimantsOf(s.claimants, id) ==> run < s.nextRun
  }

  /** The ticket says what the row says. */
  predicate Current(table: Table, ticket: Ticket) {
    ticket.id in table && table[ticket.id].windowEnd == ticket.windowEnd && table[ticket.id].kickoff == ticket.kickoff
  }

  ghost predicate Fetched(s: State, id: nat, run: nat) {
    exists k :: 0 <= k < |s.fetches| && s.fetches[k].id == id && s.fetches[k].run == run
  }

  /** Tickets are for rows the run claimed, no two for the same row, and only the first may
      have been fetched. */
  ghost predicate RunOk(s: State, run: nat)
    requires run in s.runs
  {
    var todo := s.runs[run].todo;
    && run < s.nextRun
    && (s.runs[run].fetched ==> todo != [])
    && (forall i :: 0 <= i < |todo| ==> todo[i].id in s.table && run in ClaimantsOf(s.claimants, todo[i].id))
    && (forall i, j :: 0 <= i < j < |todo| ==> todo[i].id != todo[j].id)
    && (forall i :: 0 <= i < |todo| && OwnedBy(s.table, todo[i].id, run) ==> Current(s.table, todo[i]))
    && (forall i :: (if s.runs[run].fetched then 1 else 0) <= i < |todo| ==> !Fetched(s, todo[i].id, run))
  }

  ghost predicate FetchOk(s: State, k: nat)
    requires k < |s.fetches|
  {
    var fetch := s.fetches[k];
    && fetch.id in s.table
    && fetch.run in ClaimantsOf(s.claimants, fetch.id)
    && fetch.at < fetch.ticket.windowEnd && fetch.at < fetch.ticket.kickoff
  }

  ghost predicate Inv(s: State) {
    && s.claimants.Keys <= s.table.Keys
    && (forall id {:trigger RowOk(s, id)} :: id in s.table ==> RowOk(s, id))
    && (forall run {:trigger RunOk(s, run)} :: run in s.runs ==> RunOk(s, run))
    && (forall k {:trigger FetchOk(s, k)} :: 0 <= k < |s.fetches| ==> FetchOk(s, k))
    && (forall j, k :: 0 <= j < k < |s.fetches| ==>
        s.fetches[j].id != s.fetches[k].id || s.fetches[j].run != s.fetches[k].run)
  }

  lemma ClaimKeepsRow(s: State, a: Action, id: nat)
    requires Inv(s) && Claims(s, a) && id in s.table
    ensures RowOk(Next(s, a), id)
  {
    assert RowOk(s, id);
    ClaimantsAfter(s, a, id);
    var before := ClaimantsOf(s.claimants, id);
    if id in a.picks {
      assert s.nextRun !in before;
      OneMoreMember(before, s.nextRun);
    }
  }

  lemma ClaimantsAfter(s: State, a: Action, id: nat)
    requires Claims(s, a) && id in s.table
    ensures ClaimantsOf(Next(s, a).claimants, id) ==
      if id in a.picks then ClaimantsOf(s.claimants, id) + {s.nextRun} else ClaimantsOf(s.claimants, id)
  {
  }

  lemma OneMoreMember(all: set<nat>, x: nat)
    requires x !in all
    ensures |all + {x}| == |all| + 1
  {
  }

  lemma PlanKeepsRow(s: State, a: Action, id: nat)
    requires Inv(s) && a.Plan? && id in Next(s, a).table
    ensures RowOk(Next(s, a), id)
  {
    if id in s.table {
      assert RowOk(s, id);
    }
  }

  lemma ReportKeepsRow(s: State, a: Action, id: nat)
    requires Inv(s) && Reports(s, a) && id in s.table
    ensures RowOk(Next(s, a), id)
  {
    assert RowOk(s, id);
  }

  lemma RowKept(s: State, a: Action, id: nat)
    requires Inv(s) && id in Next(s, a).table
    ensures RowOk(Next(s, a), id)
  {
    if Claims(s, a) {
      ClaimKeepsRow(s, a, id);
    } else if a.Plan? {
      PlanKeepsRow(s, a, id);
    } else if Reports(s, a) {
      ReportKeepsRow(s, a, id);
    } else if id in s.table {
      assert RowOk(s, id);
    }
  }

  /** Ownership of a row is only ever given to a new run, and an owned row keeps its window. */
  lemma OwnershipOnlyLost(s: State, a: Action, id: nat, run: nat)
    requires run < s.nextRun && OwnedBy(Next(s, a).table, id, run)
    ensures OwnedBy(s.table, id, run)
    ensures Next(s, a).table[id].windowEnd == s.table[id].windowEnd
        && Next(s, a).table[id].kickoff == s.table[id].kickoff
  {
  }

  lemma ClaimantsGrow(s: State, a: Action, id: nat)
    requires id in s.table
    ensures id in Next(s, a).table && ClaimantsOf(s.claimants, id) <= ClaimantsOf(Next(s, a).claimants, id)
  {
  }

  lemma FetchesGrow(s: State, a: Action, id: nat, run: nat)
    requires Fetched(Next(s, a), id, run)
    ensures Fetched(s, id, run) || (Fetches(s, a) && a.run == run && s.runs[run].todo[0].id == id)
  {
    var k :| 0 <= k < |Next(s, a).fetches| && Next(s, a).fetches[k].id == id && Next(s, a).fetches[k].run == run;
    assert k < |s.fetches| ==> s.fetches[k] == Next(s, a).fetches[k];
  }

  /** What is left of a run's tickets stays in order under any action. */
  lemma TodoKept(s: State, a: Action, run: nat, todo: seq<Ticket>)
    requires Inv(s) && run in s.runs
    requires todo == s.runs[run].todo || (s.runs[run].todo != [] && todo == s.runs[run].todo[1..])
    ensures forall i :: 0 <= i < |todo| ==>
      todo[i].id in Next(s, a).table && run in ClaimantsOf(Next(s, a).claimants, todo[i].id)
    ensures forall i, j :: 0 <= i < j < |todo| ==> todo[i].id != todo[j].id
    ensures forall i :: 0 <= i < |todo| && OwnedBy(Next(s, a).table, todo[i].id, run) ==>
        Current(Next(s, a).table, todo[i])
  {
    assert RunOk(s, run);
    forall i | 0 <= i < |todo|
      ensures todo[i].id in Next(s, a).table && run in ClaimantsOf(Next(s, a).claimants, todo[i].id)
      ensures OwnedBy(Next(s, a).table, todo[i].id, run) ==> Current(Next(s, a).table, todo[i])
    {
      ClaimantsGrow(s, a, todo[i].id);
      if OwnedBy(Next(s, a).table, todo[i].id, run) {
        OwnershipOnlyLost(s, a, todo[i].id, run);
      }
    }
  }

  lemma OldRunKept(s: State, a: Action, run: nat)
    requires Inv(s) && run in s.runs && run in Next(s, a).runs
    ensures RunOk(Next(s, a), run)
  {
    var s' := Next(s, a);
    assert RunOk(s, run);
    TodoKept(s, a, run, s'.runs[run].todo);
    forall i | (if s'.runs[run].fetched then 1 else 0) <= i < |s'.runs[run].todo|
      ensures !Fetched(s', s'.runs[run].todo[i].id, run)
    {
      if Fetched(s', s'.runs[run].todo[i].id, run) {
        FetchesGrow(s, a, s'.runs[run].todo[i].id, run);
      }
    }
  }

  lemma FetcherIsOld(s: State, k: nat)
    requires Inv(s) && k < |s.fetches|
    ensures s.fetches[k].run < s.nextRun
  {
    assert FetchOk(s, k);
    assert RowOk(s, s.fetches[k].id);
  }

  lemma NewRunOk(s: State, a: Action)
    requires Inv(s) && Claims(s, a)
    ensures RunOk(Next(s, a), s.nextRun)
  {
    forall k | 0 <= k < |s.fetches|
      ensures s.fetches[k].run != s.nextRun
    {
      FetcherIsOld(s, k);
    }
  }

  lemma RunKept(s: State, a: Action, run: nat)
    requires Inv(s) && run in Next(s, a).runs
    ensures RunOk(Next(s, a), run)
  {
    if run in s.runs {
      assert RunOk(s, run);
      OldRunKept(s, a, run);
    } else {
      NewRunOk(s, a);
    }
  }

  lemma FetchesKept(s: State, a: Action, k: nat)
    requires Inv(s) && k < |Next(s, a).fetches|
    ensures FetchOk(Next(s, a), k)
  {
    if k < |s.fetches| {
      assert FetchOk(s, k);
    } else {
      assert RunOk(s, a.run);
    }
  }

  lemma NextKept(s: State, a: Action)
    requires Inv(s)
    ensures Inv(Next(s, a))
  {
    var s' := Next(s, a);
    forall id | id in s'.table
      ensures RowOk(s', id)
    {
      RowKept(s, a, id);
    }
    forall run | run in s'.runs
      ensures RunOk(s', run)
    {
      RunKept(s, a, run);
    }
    forall k | 0 <= k < |s'.fetches|
      ensures FetchOk(s', k)
    {
      FetchesKept(s, a, k);
    }
    NoFetchTwice(s, a);
  }

  lemma NoFetchTwice(s: State, a: Action)
    requires Inv(s)
    ensures var fetches := Next(s, a).fetches;
      forall j, k :: 0 <= j < k < |fetches| ==> fetches[j].id != fetches[k].id || fetches[j].run != fetches[k].run
  {
    if Fetches(s, a) {
      assert RunOk(s, a.run);
      assert !Fetched(s, s.runs[a.run].todo[0].id, a.run);
    }
  }

  lemma {:induction false} Reachable(actions: seq<Action>)
    ensures Inv(Run(actions))
  {
    if actions != [] {
      Reachable(actions[..|actions| - 1]);
      NextKept(Run(actions[..|actions| - 1]), actions[|actions| - 1]);
    }
  }

  // ---------------------------------------------------------------- what every history keeps

  function CountFetches(fetches: seq<Fetch>, id: nat): nat {
    if fetches == [] then 0
    else CountFetches(fetches[..|fetches| - 1], id) + if fetches[|fetches| - 1].id == id then 1 else 0
  }

  lemma {:induction false} CountIsRuns(fetches: seq<Fetch>, id: nat) returns (runs: set<nat>)
    requires forall j, k :: 0 <= j < k < |fetches| ==>
        fetches[j].id != fetches[k].id || fetches[j].run != fetches[k].run
    ensures |runs| == CountFetches(fetches, id)
    ensures forall run :: run in runs <==>
      exists k :: 0 <= k < |fetches| && fetches[k].id == id && fetches[k].run == run
  {
    if fetches == [] {
      runs := {};
    } else {
      var n := |fetches| - 1;
      runs := CountIsRuns(fetches[..n], id);
      ghost var before := runs;
      if fetches[n].id == id {
        assert fetches[n].run !in runs;
        OneMoreMember(runs, fetches[n].run);
        runs := runs + {fetches[n].run};
      }
      forall run
        ensures run in runs <==> exists k :: 0 <= k < |fetches| && fetches[k].id == id && fetches[k].run == run
      {
        if run in before {
          var k :| 0 <= k < n && fetches[..n][k].id == id && fetches[..n][k].run == run;
          assert fetches[k].id == id;
        }
        if k :| 0 <= k < |fetches| && fetches[k].id == id && fetches[k].run == run {
          assert k < n ==> fetches[..n][k] == fetches[k];
        }
      }
    }
  }

  lemma SubsetSize(some: set<nat>, all: set<nat>)
    requires some <= all
    ensures |some| <= |all|
  {
    assert all == some + (all - some);
  }

  /** Whatever runs crash and whichever leases expire, no row is fetched more often than its
      attempt limit allows. */
  lemma FetchesAreBounded(actions: seq<Action>, id: nat)
    requires id in Run(actions).table
    ensures id in Run(actions).peak
    ensures CountFetches(Run(actions).fetches, id) <= Run(actions).table[id].attempts <= Run(actions).peak[id]
  {
    var s := Run(actions);
    Reachable(actions);
    assert RowOk(s, id);
    var runs := CountIsRuns(s.fetches, id);
    forall run | run in runs
      ensures run in ClaimantsOf(s.claimants, id)
    {
      var k :| 0 <= k < |s.fetches| && s.fetches[k].id == id && s.fetches[k].run == run;
      assert FetchOk(s, k);
    }
    SubsetSize(runs, ClaimantsOf(s.claimants, id));
  }

  /** If every plan gives a row the same limit, that is the bound. */
  lemma {:induction false} FixedLimit(actions: seq<Action>, id: nat, limit: nat)
    requires forall i :: 0 <= i < |actions| && actions[i].Plan? && actions[i].id == id ==>
        actions[i].plan.maxAttempts == limit
    requires id in Run(actions).peak
    ensures Run(actions).peak[id] == limit
  {
    var before, a := actions[..|actions| - 1], actions[|actions| - 1];
    if id in Run(before).peak {
      FixedLimit(before, id, limit);
    }
  }

  /** At some point of the run the collector `run` claimed a row and the ticket is what the row
      said then. */
  ghost predicate ClaimedAt(actions: seq<Action>, run: nat, ticket: Ticket, m: nat)
    requires m < |actions|
  {
    var s, a := Run(actions[..m]), actions[m];
    && Claims(s, a) && s.nextRun == run && ticket.id in a.picks
    && ticket == Ticket(ticket.id, s.table[ticket.id].windowEnd, s.table[ticket.id].kickoff)
  }

  ghost predicate WasClaimed(actions: seq<Action>, run: nat, ticket: Ticket) {
    exists m: nat :: m < |actions| && ClaimedAt(actions, run, ticket, m)
  }

  lemma ClaimLasts(actions: seq<Action>, run: nat, ticket: Ticket)
    requires actions != [] && WasClaimed(actions[..|actions| - 1], run, ticket)
    ensures WasClaimed(actions, run, ticket)
  {
    var before := actions[..|actions| - 1];
    var m: nat :| m < |before| && ClaimedAt(before, run, ticket, m);
    assert before[..m] == actions[..m];
    assert ClaimedAt(actions, run, ticket, m);
  }

  /** Every ticket of a run and of a fetch is for a row the run claimed. */
  ghost predicate TicketsClaimed(actions: seq<Action>) {
    var s := Run(actions);
    && (forall run, i :: run in s.runs && 0 <= i < |s.runs[run].todo| ==> WasClaimed(actions, run, s.runs[run].todo[i]))
    && (forall k :: 0 <= k < |s.fetches| ==>
          s.fetches[k].ticket.id == s.fetches[k].id && WasClaimed(actions, s.fetches[k].run, s.fetches[k].ticket))
  }

  lemma NewTicketsClaimed(actions: seq<Action>, i: nat)
    requires actions != []
    requires var s, a := Run(actions[..|actions| - 1]), actions[|actions| - 1];
      Claims(s, a) && i < |a.picks|
    ensures var s, a := Run(actions[..|actions| - 1]), actions[|actions| - 1];
      WasClaimed(actions, s.nextRun, Tickets(s.table, a.picks)[i])
  {
    var m := |actions| - 1;
    var s, a := Run(actions[..m]), actions[m];
    assert a.picks[i] in a.picks && a.picks[i] in EligibleIds(s.table, a.now, a.maxRank, a.maxCost);
    assert ClaimedAt(actions, s.nextRun, Tickets(s.table, a.picks)[i], m);
  }

  lemma TodoClaimed(actions: seq<Action>, run: nat, i: nat)
    requires actions != [] && TicketsClaimed(actions[..|actions| - 1])
    requires run in Run(actions).runs && i < |Run(actions).runs[run].todo|
    ensures WasClaimed(actions, run, Run(actions).runs[run].todo[i])
  {
    var s, a := Run(actions[..|actions| - 1]), actions[|actions| - 1];
    if Claims(s, a) && run == s.nextRun {
      NewTicketsClaimed(actions, i);
    } else {
      var j := if Reports(s, a) && run == a.run then i + 1 else i;
      assert Run(actions).runs[run].todo[i] == s.runs[run].todo[j];
      ClaimLasts(actions, run, s.runs[run].todo[j]);
    }
  }

  lemma FetchClaimed(actions: seq<Action>, k: nat)
    requires actions != [] && TicketsClaimed(actions[..|actions| - 1])
    requires k < |Run(actions).fetches|
    ensures var fetch := Run(actions).fetches[k];
      fetch.ticket.id == fetch.id && WasClaimed(actions, fetch.run, fetch.ticket)
  {
    var s, a := Run(actions[..|actions| - 1]), actions[|actions| - 1];
    var fetch := Run(actions).fetches[k];
    if k < |s.fetches| {
      assert fetch == s.fetches[k];
    } else {
      assert fetch.ticket == s.runs[a.run].todo[0] && fetch.run == a.run;
    }
    ClaimLasts(actions, fetch.run, fetch.ticket);
  }

  lemma {:induction false} TicketsAreClaimed(actions: seq<Action>)
    ensures TicketsClaimed(actions)
  {
    if actions != [] {
      TicketsAreClaimed(actions[..|actions| - 1]);
      var s := Run(actions);
      forall run, i | run in s.runs && 0 <= i < |s.runs[run].todo|
        ensures WasClaimed(actions, run, s.runs[run].todo[i])
      {
        TodoClaimed(actions, run, i);
      }
      forall k | 0 <= k < |s.fetches|
        ensures s.fetches[k].ticket.id == s.fetches[k].id && WasClaimed(actions, s.fetches[k].run, s.fetches[k].ticket)
      {
        FetchClaimed(actions, k);
      }
    }
  }

  /** Every fetch ever made was made by a run that had claimed the row before, and started
      before the end of the row's window, and so before its kickoff, as they were when it was
      claimed. */
  lemma FetchesAreTimely(actions: seq<Action>, k: nat) returns (m: nat)
    requires k < |Run(actions).fetches|
    ensures m < |actions|
    ensures var fetch, s := Run(actions).fetches[k], Run(actions[..m]);
      && Claims(s, actions[m]) && s.nextRun == fetch.run && fetch.id in actions[m].picks
      && fetch.id in s.table && fetch.at < s.table[fetch.id].windowEnd <= s.table[fetch.id].kickoff
  {
    Reachable(actions);
    TicketsAreClaimed(actions);
    var fetch := Run(actions).fetches[k];
    assert FetchOk(Run(actions), k);
    m :| m < |actions| && ClaimedAt(actions, fetch.run, fetch.ticket, m);
    Reachable(actions[..m]);
    var s := Run(actions[..m]);
    assert fetch.id in EligibleIds(s.table, actions[m].now, actions[m].maxRank, actions[m].maxCost);
    assert RowOk(s, fetch.id);
  }

  /** While a run owns a row its ticket says what the row says, however it is planned anew. */
  lemma OwnedRowKeepsItsWindow(actions: seq<Action>, run: nat, i: nat)
    requires run in Run(actions).runs && i < |Run(actions).runs[run].todo|
    requires OwnedBy(Run(actions).table, Run(actions).runs[run].todo[i].id, run)
    ensures Current(Run(actions).table, Run(actions).runs[run].todo[i])
  {
    Reachable(actions);
    assert RunOk(Run(actions), run);
  }

  /** Completed and skipped are for good: nothing ever changes such a row again. */
  lemma {:induction false} TerminalIsFinal(actions: seq<Action>, more: seq<Action>, id: nat)
    requires id in Run(actions).table && Terminal(Run(actions).table[id].status)
    ensures id in Run(actions + more).table && Run(actions + more).table[id] == Run(actions).table[id]
  {
    if more == [] {
      assert actions + more == actions;
    } else {
      var all, rest, last := actions + more, more[..|more| - 1], more[|more| - 1];
      TerminalIsFinal(actions, rest, id);
      TerminalStep(Run(actions + rest), last, id);
      assert all[..|all| - 1] == actions + rest && all[|all| - 1] == last;
    }
  }

  lemma TerminalStep(s: State, a: Action, id: nat)
    requires id in s.table && Terminal(s.table[id].status)
    ensures id in Next(s, a).table && Next(s, a).table[id] == s.table[id]
  {
  }

  // ---------------------------------------------------------------- when a row can be claimed again

  /** A claim may pick the row. */
  predicate MayBeClaimed(table: Table, id: nat, now: int, maxRank: nat, maxCost: nat) {
    id in EligibleIds(table, now, maxRank, maxCost)
  }

  /** The due window is open and rank and cost are within the caps. */
  predicate Due(row: Row, now: int, maxRank: nat, maxCost: nat) {
    row.dueAt <= now < row.windowEnd && row.rank <= maxRank && row.markets <= maxCost
  }

  /** Once claimed, a row can be claimed again exactly from the end of its lease on, while its
      window lasts and an attempt is left. */
  lemma ClaimHolds(s: State, a: Action, id: nat, now: int, maxRank: nat, maxCost: nat)
    requires Claims(s, a) && id in a.picks
    ensures id in s.table
    ensures MayBeClaimed(Next(s, a).table, id, now, maxRank, maxCost) <==>
      && now >= a.now + a.leaseMs && Due(s.table[id], now, maxRank, maxCost)
      && s.table[id].attempts + 1 < s.table[id].maxAttempts
  {
    assert id in EligibleIds(s.table, a.now, a.maxRank, a.maxCost);
  }

  /** A failed row can be claimed again exactly from its retry time on, under the same limits;
      a completed or skipped one never. */
  lemma ReportDecides(s: State, a: Action, now: int, maxRank: nat, maxCost: nat)
    requires Reports(s, a) && OwnedBy(s.table, s.runs[a.run].todo[0].id, a.run)
    ensures var id := s.runs[a.run].todo[0].id;
      && (a.CompleteHead? <==> Next(s, a).table[id].status.Completed?)
      && (a.FailHead? <==> Next(s, a).table[id].status.Failed?)
      && (a.SkipHead? || a.SkipLate? <==> Next(s, a).table[id].status.Skipped?)
      && (MayBeClaimed(Next(s, a).table, id, now, maxRank, maxCost) <==>
            && a.FailHead? && now >= a.retryAt && Due(s.table[id], now, maxRank, maxCost)
            && s.table[id].attempts < s.table[id].maxAttempts)
  {
  }

  /** A report by a run that lost the row changes nothing. */
  lemma LostReportIsIgnored(s: State, a: Action)
    requires Reports(s, a) && !OwnedBy(s.table, s.runs[a.run].todo[0].id, a.run)
    ensures Next(s, a).table == s.table
  {
  }

  /** Neither plans nor replacements touch a row that a run owns or that is settled. */
  lemma PlansRespectClaims(s: State, a: Action, id: nat)
    requires (a.Plan? || a.Supersede?) && id in s.table && !Open(s.table[id].status)
    ensures id in Next(s, a).table && Next(s, a).table[id] == s.table[id]
  {
  }

  /** A planned row can be claimed as the plan says: at once if it is new or pending, and from
      its retry time on if it failed before. */
  lemma PlanDecides(s: State, a: Action, now: int, maxRank: nat, maxCost: nat)
    requires a.Plan? && PlanOk(a.plan) && (a.id in s.table ==> Open(s.table[a.id].status))
    ensures MayBeClaimed(Next(s, a).table, a.id, now, maxRank, maxCost) <==>
      && Due(a.plan, now, maxRank, maxCost)
      && (a.id in s.table ==> s.table[a.id].attempts < a.plan.maxAttempts)
      && (a.id in s.table && s.table[a.id].status.Failed? && s.table[a.id].nextAttemptAt.Some? ==>
            now >= s.table[a.id].nextAttemptAt.value)
  {
  }

  /** A replaced row that was open is skipped, and all others stay. */
  lemma SupersedeSkips(s: State, a: Action, id: nat)
    requires a.Supersede? && id in s.table
    ensures id in Next(s, a).table
    ensures if id in a.ids && Open(s.table[id].status)
            then Next(s, a).table[id].status.Skipped? else Next(s, a).table[id] == s.table[id]
  {
  }

  /** A claim skips a row exactly if it is due and nobody is at work on it, but its window is
      over or no attempt is left. */
  lemma ClaimSkips(s: State, a: Action, id: nat)
    requires Claims(s, a) && id in s.table && !s.table[id].status.Skipped?
    ensures id in Next(s, a).table
    ensures var row := s.table[id];
      Next(s, a).table[id].status.Skipped? <==>
        && row.dueAt <= a.now && (a.now >= row.windowEnd || row.attempts >= row.maxAttempts)
        && (match row.status
            case Pending => true
            case Failed => true
            case Claimed => row.expiresAt.Some? && a.now >= row.expiresAt.value
            case Completed => false
            case Skipped => false)
  {
    if id in a.picks {
      assert id in EligibleIds(s.table, a.now, a.maxRank, a.maxCost);
    }
  }

  /** What a run does with the first row it still has to fetch follows from its clock alone. */
  lemma FetchOrSkip(s: State, run: nat, at: int)
    requires Busy(s, run) && !s.runs[run].fetched
    ensures var ticket := s.runs[run].todo[0];
      && (Fetches(s, StartFetch(run, at)) <==> at < ticket.windowEnd && at < ticket.kickoff)
      && (Reports(s, SkipLate(run, at)) <==> !Fetches(s, StartFetch(run, at)))
  {
  }

  // ---------------------------------------------------------------- a lease keeps other runs out

  /** The claim at `i` of the history picks the row. */
  ghost predicate ClaimedIn(actions: seq<Action>, i: nat, id: nat)
    requires i < |actions|
  {
    Claims(Run(actions[..i]), actions[i]) && id in actions[i].picks
  }

  /** The run that claimed at `i` reports on the row at `k`. */
  ghost predicate ReportedIn(actions: seq<Action>, i: nat, k: nat, id: nat)
    requires i < |actions| && k < |actions|
  {
    var s := Run(actions[..k]);
    Reports(s, actions[k]) && actions[k].run == Run(actions[..i]).nextRun && s.runs[actions[k].run].todo[0].id == id
  }

  /** The row is in the hands of a run until `end`. */
  predicate Held(table: Table, id: nat, run: nat, end: int) {
    OwnedBy(table, id, run) && table[id].expiresAt == Some(end)
  }

  /** ... or settled for good. */
  predicate HeldOrSettled(table: Table, id: nat, run: nat, end: int) {
    id in table && (Held(table, id, run, end) || Terminal(table[id].status))
  }

  lemma HeldKept(s: State, a: Action, id: nat, run: nat, end: int)
    requires HeldOrSettled(s.table, id, run, end) && run < s.nextRun
    requires Claims(s, a) ==> id !in a.picks
    requires Reports(s, a) ==> a.run != run || s.runs[run].todo[0].id != id
    ensures HeldOrSettled(Next(s, a).table, id, run, end) && run < Next(s, a).nextRun
  {
    if Terminal(s.table[id].status) {
      TerminalStep(s, a, id);
    }
  }

  lemma ClaimBegins(s: State, a: Action, id: nat)
    requires Claims(s, a) && id in a.picks
    ensures HeldOrSettled(Next(s, a).table, id, s.nextRun, a.now + a.leaseMs) && s.nextRun < Next(s, a).nextRun
  {
    assert id in EligibleIds(s.table, a.now, a.maxRank, a.maxCost);
  }

  /** The row is as the run that claimed it at `i` left it, or settled for good. */
  ghost predicate HeldSince(actions: seq<Action>, i: nat, j: nat, id: nat)
    requires i < |actions| && j <= |actions| && actions[i].Claim?
  {
    && Run(actions[..i]).nextRun < Run(actions[..j]).nextRun
    && HeldOrSettled(Run(actions[..j]).table, id, Run(actions[..i]).nextRun, actions[i].now + actions[i].leaseMs)
  }

  lemma HeldOneMore(actions: seq<Action>, i: nat, k: nat, id: nat)
    requires i < k < |actions| && actions[i].Claim? && HeldSince(actions, i, k, id)
    requires !ClaimedIn(actions, k, id) && !ReportedIn(actions, i, k, id)
    ensures HeldSince(actions, i, k + 1, id)
  {
    assert actions[..k + 1][..k] == actions[..k];
    HeldKept(Run(actions[..k]), actions[k], id, Run(actions[..i]).nextRun, actions[i].now + actions[i].leaseMs);
  }

  lemma HeldFirst(actions: seq<Action>, i: nat, id: nat)
    requires i < |actions| && ClaimedIn(actions, i, id)
    ensures actions[i].Claim? && HeldSince(actions, i, i + 1, id)
  {
    assert actions[..i + 1][..i] == actions[..i];
    ClaimBegins(Run(actions[..i]), actions[i], id);
  }

  /** From the claim at `i` on, as long as nobody claims or gives up the row, its run keeps it. */
  lemma {:induction false} ClaimIsHeld(actions: seq<Action>, i: nat, j: nat, id: nat)
    requires i < j <= |actions| && ClaimedIn(actions, i, id)
    requires forall k :: i < k < j ==> !ClaimedIn(actions, k, id) && !ReportedIn(actions, i, k, id)
    ensures actions[i].Claim? && HeldSince(actions, i, j, id)
    decreases j
  {
    HeldFirst(actions, i, id);
    if j > i + 1 {
      ClaimIsHeld(actions, i, j - 1, id);
      HeldOneMore(actions, i, j - 1, id);
    }
  }

  lemma HeldIsFree(table: Table, id: nat, run: nat, end: int, now: int, maxRank: nat, maxCost: nat)
    requires HeldOrSettled(table, id, run, end) && MayBeClaimed(table, id, now, maxRank, maxCost)
    ensures now >= end
  {
  }

  /** Between a claim of a row and the next one lies the lease of the first, or a report on the
      row by the run that made it, whatever all the clocks say. */
  lemma LeaseKeepsRunsOut(actions: seq<Action>, i: nat, j: nat, id: nat)
    requires i < j < |actions| && ClaimedIn(actions, i, id) && ClaimedIn(actions, j, id)
    requires forall k :: i < k < j ==> !ClaimedIn(actions, k, id)
    requires forall k :: i < k < j ==> !ReportedIn(actions, i, k, id)
    ensures actions[j].now >= actions[i].now + actions[i].leaseMs
  {
    ClaimIsHeld(actions, i, j, id);
    HeldIsFree(Run(actions[..j]).table, id, Run(actions[..i]).nextRun, actions[i].now + actions[i].leaseMs,
               actions[j].now, actions[j].maxRank, actions[j].maxCost);
  }

  lemma {:induction false} FirstClaim(actions: seq<Action>, i: nat, j: nat, id: nat) returns (first: nat)
    requires i < j < |actions| && ClaimedIn(actions, j, id)
    ensures i < first <= j && ClaimedIn(actions, first, id)
    ensures forall k :: i < k < first ==> !ClaimedIn(actions, k, id)
    decreases j
  {
    if k :| i < k < j && ClaimedIn(actions, k, id) {
      first := FirstClaim(actions, i, k, id);
    } else {
      first := j;
    }
  }

  /** If claims come in the order of their clocks, any two claims of one row are a lease apart,
      or the run that made the first reported on the row in between. */
  lemma LeasesInOrder(actions: seq<Action>, i: nat, j: nat, id: nat)
    requires i < j < |actions| && ClaimedIn(actions, i, id) && ClaimedIn(actions, j, id)
    requires forall p, q :: 0 <= p < q < |actions| && actions[p].Claim? && actions[q].Claim? ==>
        actions[p].now <= actions[q].now
    requires forall k :: i < k < j ==> !ReportedIn(actions, i, k, id)
    ensures actions[j].now >= actions[i].now + actions[i].leaseMs
  {
    var first := FirstClaim(actions, i, j, id);
    LeaseKeepsRunsOut(actions, i, first, id);
  }

  /** A row claimed before and after a failure report waits for its retry time. */
  lemma RetryWaits(s: State, a: Action, b: Action)
    requires Reports(s, a) && a.FailHead? && OwnedBy(s.table, s.runs[a.run].todo[0].id, a.run)
    requires Claims(Next(s, a), b) && s.runs[a.run].todo[0].id in b.picks
    ensures b.now >= a.retryAt
  {
    var id := s.runs[a.run].todo[0].id;
    assert id in EligibleIds(Next(s, a).table, b.now, b.maxRank, b.maxCost);
  }

  // ---------------------------------------------------------------- when a claim stays within the quota

  predicate CostAtMost(table: Table, most: nat) {
    forall id :: id in table ==> table[id].markets <= most
  }

  /** Whatever has been planned and done so far, if no row asks for more than `most` markets a
      claim costs at most what is left. */
  ghost predicate QuotaKept(remaining: nat, limits: Limits, most: nat) {
    forall actions, now, locked, picks {:trigger Claimable(Run(actions).table, now, limits, locked, picks)} ::
      CostAtMost(Run(actions).table, most) && Claimable(Run(actions).table, now, limits, locked, picks) ==>
        TotalMarkets(Run(actions).table, picks) <= remaining
  }

  function Min(a: nat, b: nat): nat {
    if a < b then a else b
  }

  lemma {:induction false} MoreCostsMore(n: nat, count: nat, cost: nat)
    requires n <= count
    ensures n * cost <= count * cost
  {
    assert count * cost - n * cost == (count - n) * cost;
  }

  lemma {:induction false} CostOfPicks(table: Table, picks: seq<nat>, cost: nat)
    requires forall i :: 0 <= i < |picks| ==> picks[i] in table && table[picks[i]].markets <= cost
    ensures TotalMarkets(table, picks) <= |picks| * cost
  {
    if picks != [] {
      CostOfPicks(table, picks[..|picks| - 1], cost);
      assert |picks| * cost == (|picks| - 1) * cost + cost;
    }
  }

  /** A claim costs at most its limit times the dearest row it may take. */
  lemma ClaimCost(table: Table, now: int, limits: Limits, most: nat, locked: set<nat>, picks: seq<nat>)
    requires CostAtMost(table, most) && Claimable(table, now, limits, locked, picks)
    ensures TotalMarkets(table, picks) <= limits.claimLimit * Min(most, limits.maxCost)
  {
    var cost := Min(most, limits.maxCost);
    forall i | 0 <= i < |picks|
      ensures table[picks[i]].markets <= cost
    {
      assert picks[i] in EligibleIds(table, now, limits.maxRank, limits.maxCost);
    }
    CostOfPicks(table, picks, cost);
    MoreCostsMore(|picks|, limits.claimLimit, cost);
  }

  function Plans(n: nat, plan: Row): seq<Action> {
    if n == 0 then [] else Plans(n - 1, plan) + [Plan(n - 1, plan)]
  }

  function Numbers(n: nat): (ids: seq<nat>)
    ensures |ids| == n && forall i :: 0 <= i < n ==> ids[i] == i
  {
    seq(n, i requires 0 <= i < n => i)
  }

  predicate IsFresh(row: Row) {
    row.status.Pending? && row.owner.None? && row.expiresAt.None? && row.attempts == 0 && row.nextAttemptAt.None?
  }

  lemma PlanInserts(s: State, id: nat, plan: Row)
    requires PlanOk(plan) && IsFresh(plan) && id !in s.table
    ensures Next(s, Plan(id, plan)).table == s.table[id := plan]
  {
  }

  /** Rows numbered from nought, all alike. */
  ghost predicate Alike(table: Table, n: nat, plan: Row) {
    && (forall id: nat :: id in table <==> id < n)
    && (forall id :: id in table ==> table[id] == plan)
    && |table.Keys| == n
  }

  lemma OneMoreAlike(table: Table, n: nat, plan: Row)
    requires Alike(table, n, plan)
    ensures Alike(table[n := plan], n + 1, plan)
  {
    var more := table[n := plan];
    assert more.Keys == table.Keys + {n} && n !in table.Keys;
    forall id: nat | id in more
      ensures id < n + 1 && more[id] == plan
    {
      assert id == n || id in table;
    }
    forall id: nat | id < n + 1
      ensures id in more
    {
      assert id == n || id in table;
    }
  }

  lemma {:induction false} AllPlanned(n: nat, plan: Row)
    requires PlanOk(plan) && IsFresh(plan)
    ensures Alike(Run(Plans(n, plan)).table, n, plan)
  {
    if n > 0 {
      AllPlanned(n - 1, plan);
      assert Plans(n, plan)[..|Plans(n, plan)| - 1] == Plans(n - 1, plan);
      PlanInserts(Run(Plans(n - 1, plan)), n - 1, plan);
      OneMoreAlike(Run(Plans(n - 1, plan)).table, n - 1, plan);
    }
  }

  lemma AllAreFirst(table: Table, n: nat, plan: Row)
    requires Alike(table, n, plan)
    ensures FirstOf(table, table.Keys, n, Numbers(n))
  {
    forall id | id in table
      ensures id in Numbers(n)
    {
      assert Numbers(n)[id] == id;
    }
  }

  lemma {:induction false} CostOfAll(table: Table, n: nat, cost: nat)
    requires forall id :: 0 <= id < n ==> id in table && table[id].markets == cost
    ensures TotalMarkets(table, Numbers(n)) == n * cost
  {
    if n > 0 {
      CostOfAll(table, n - 1, cost);
      assert Numbers(n)[..n - 1] == Numbers(n - 1);
      assert n * cost == (n - 1) * cost + cost;
    }
  }

  /** As many equally dear rows as one claim may take, all due at once. */
  lemma DearestClaim(limits: Limits, cost: nat) returns (actions: seq<Action>)
    requires 0 < cost <= limits.maxCost && limits.maxRank > 0
    ensures CostAtMost(Run(actions).table, cost)
    ensures Claimable(Run(actions).table, 0, limits, {}, Numbers(limits.claimLimit))
    ensures TotalMarkets(Run(actions).table, Numbers(limits.claimLimit)) == limits.claimLimit * cost
  {
    var n := limits.claimLimit;
    var plan := Row(Pending, None, None, 0, 1, 0, 1, 1, 1, cost, None);
    actions := Plans(n, plan);
    AllPlanned(n, plan);
    var table := Run(actions).table;
    assert EligibleIds(table, 0, limits.maxRank, limits.maxCost) - {} == table.Keys;
    AllAreFirst(table, n, plan);
    CostOfAll(table, n, cost);
  }

  /** For every known quota: no claim of rows of at most `most` markets ever costs more than
      what is left exactly if the claim limit times the dearest row it may take does not. */
  lemma QuotaKeptExactly(remaining: nat, reserve: nat, marketCost: nat, claimLimit: nat, most: nat)
    requires marketCost > 0
    ensures var limits := QuotaLimits(Some(remaining), reserve, marketCost, claimLimit);
      QuotaKept(remaining, limits, most) <==> limits.claimLimit * Min(most, remaining) <= remaining
  {
    var limits := QuotaLimits(Some(remaining), reserve, marketCost, claimLimit);
    var cost := Min(most, remaining);
    if limits.claimLimit * cost <= remaining {
      forall actions, now, locked, picks |
        CostAtMost(Run(actions).table, most) && Claimable(Run(actions).table, now, limits, locked, picks)
        ensures TotalMarkets(Run(actions).table, picks) <= remaining
      {
        ClaimCost(Run(actions).table, now, limits, most, locked, picks);
      }
    } else {
      assert cost > 0;
      var actions := DearestClaim(limits, cost);
      assert CostAtMost(Run(actions).table, most);
    }
  }

  /** With more in hand than the reserve and one full set of markets, rows of at most a full
      set never overspend exactly if that many full sets can be paid for; without a bound on
      the rows, exactly if a claim takes one row at most. */
  lemma PlentifulQuota(remaining: nat, reserve: nat, marketCost: nat, claimLimit: nat)
    requires marketCost > 0 && remaining > reserve + marketCost
    ensures var limits := QuotaLimits(Some(remaining), reserve, marketCost, claimLimit);
      && (QuotaKept(remaining, limits, marketCost) <==> claimLimit * marketCost <= remaining)
      && ((forall most :: QuotaKept(remaining, limits, most)) <==> claimLimit <= 1)
  {
    var limits := QuotaLimits(Some(remaining), reserve, marketCost, claimLimit);
    QuotaKeptExactly(remaining, reserve, marketCost, claimLimit, marketCost);
    QuotaKeptExactly(remaining, reserve, marketCost, claimLimit, remaining);
    if claimLimit <= 1 {
      forall most
        ensures QuotaKept(remaining, limits, most)
      {
        QuotaKeptExactly(remaining, reserve, marketCost, claimLimit, most);
      }
    } else {
      MoreCostsMore(2, claimLimit, remaining);
    }
  }
}
