/** The cross-instance refresh lease of the live-prop cache, and its callers. */
module RefreshLease {
  // One row of the cache table, the five statements that touch it, and any number of callers of
  // `getOrRefresh`.  Time is the database clock, in milliseconds; a caller reads its own clock
  // once, when it starts.  Rows of different keys never meet, so one row is the whole store.

  import opened Wrappers

  /** A cached payload is named by the call that fetched it. */
  datatype Entry = Entry(fetcher: nat, fetchedAt: int)

  datatype Row = Row(entry: Option<Entry>, owner: Option<nat>, leaseUntil: Option<int>)

  // ---------------------------------------------------------------- the statements

  function ReadEntry(row: Option<Row>): Option<Entry> {
    if row.None? then None else row.value.entry
  }

  predicate CanAcquire(row: Option<Row>, freshAfter: int, now: int) {
    row.Some? ==>
      && (row.value.entry.None? || row.value.entry.value.fetchedAt <= freshAfter)
      && (row.value.leaseUntil.None? || row.value.leaseUntil.value <= now)
  }

  function AcquiredRow(row: Option<Row>, owner: nat, leaseMs: int, now: int): Option<Row> {
    Some(Row(ReadEntry(row), Some(owner), Some(now + leaseMs)))
  }

  predicate Owns(row: Option<Row>, owner: nat) {
    row.Some? && row.value.owner == Some(owner)
  }

  function RenewedRow(row: Option<Row>, owner: nat, leaseMs: int, now: int): Option<Row> {
    if Owns(row, owner) then Some(row.value.(leaseUntil := Some(now + leaseMs))) else row
  }

  function WrittenRow(row: Option<Row>, owner: nat, now: int): Option<Row> {
    if Owns(row, owner) then Some(Row(Some(Entry(owner, now)), None, None)) else row
  }

  function ReleasedRow(row: Option<Row>, owner: nat): Option<Row> {
    if Owns(row, owner) then Some(row.value.(owner := None, leaseUntil := None)) else row
  }

  /** Nobody but the owner changes a row by renewing, writing or releasing it. */
  lemma OnlyTheOwner(row: Option<Row>, caller: nat, leaseMs: int, now: int)
    requires row.None? || row.value.owner != Some(caller)
    ensures RenewedRow(row, caller, leaseMs, now) == WrittenRow(row, caller, now) == ReleasedRow(row, caller) == row
  {
  }

  /** The row as the statements update it in place. */
  class CacheRow {
    var row: Option<Row>

    constructor ()
      ensures row.None?
    {
      row := None;
    }

    method TryAcquireRefresh(owner: nat, freshAfter: int, leaseMs: int, now: int) returns (acquired: bool)
      modifies this
      ensures acquired <==> CanAcquire(old(row), freshAfter, now)
      ensures row == if acquired then AcquiredRow(old(row), owner, leaseMs, now) else old(row)
    {
      if row.None? {
        row := Some(Row(None, Some(owner), Some(now + leaseMs)));
        return true;
      }
      var r := row.value;
      acquired := (r.entry.None? || r.entry.value.fetchedAt <= freshAfter)
          && (r.leaseUntil.None? || r.leaseUntil.value <= now);
      if acquired {
        row := Some(r.(owner := Some(owner), leaseUntil := Some(now + leaseMs)));
      }
    }

    method Renew(owner: nat, leaseMs: int, now: int) returns (renewed: bool)
      modifies this
      ensures renewed <==> Owns(old(row), owner)
      ensures row == RenewedRow(old(row), owner, leaseMs, now)
    {
      renewed := row.Some? && row.value.owner == Some(owner);
      if renewed {
        row := Some(row.value.(leaseUntil := Some(now + leaseMs)));
      }
    }

    method Write(owner: nat, now: int) returns (written: bool)
      modifies this
      ensures written <==> Owns(old(row), owner)
      ensures row == WrittenRow(old(row), owner, now)
    {
      written := row.Some? && row.value.owner == Some(owner);
      if written {
        row := Some(Row(Some(Entry(owner, now)), None, None));
      }
    }

    method Release(owner: nat)
      modifies this
      ensures row == ReleasedRow(old(row), owner)
    {
      if row.Some? && row.value.owner == Some(owner) {
        row := Some(row.value.(owner := None, leaseUntil := None));
      }
    }
  }

  // ---------------------------------------------------------------- the callers

  datatype Phase =
    | Checking                               // the read before anything else
    | Acquiring
    | Waiting                                // somebody else refreshes
    | Acquired(at: int)                      // acquired, the reply is on its way
    | Fetching(at: int, deadline: int)       // the upstream fetch is running and not aborted
    | Aborted                                // the fetch failed, timed out or lost its lease
    | Writing                                // fetched
    | Closing                                // the write was made, refused or lost
    | Returned(payload: nat)
    | Failed

  datatype Caller = Caller(freshAfter: int, ttlMs: nat, leaseMs: nat, timeoutMs: nat, phase: Phase)

  datatype Write = Write(writer: nat, at: int)

  /** `nextOwner` supplies owner ids; a call is named by its own.  The last four fields are
      history: who ever acquired, the writes that took effect, whether some caller's clock
      ran ahead of the database clock, and whether some acquire reply took more than
      `replyMs` or some timeout fired late. */
  datatype State = State(
    row: Option<Row>,
    now: int,
    callers: map<nat, Caller>,
    nextOwner: nat,
    replyMs: nat,
    acquirers: set<nat>,
    writes: seq<Write>,
    clockAhead: bool,
    untimely: bool)

  datatype Action =
    | Start(startedAt: int, ttlMs: nat, leaseMs: nat, timeoutMs: nat, renewMs: nat)
    | Read(call: nat)
    | Acquire(call: nat)
    | GiveUp(call: nat)
    | Reply(call: nat)
    | Fetched(call: nat)
    | Abort(call: nat)
    | Renew(call: nat)
    | DoWrite(call: nat)
    | WriteFails(call: nat)
    | Release(call: nat)
    | Return(call: nat)
    | Tick(ms: nat)

  function Init(now: int, replyMs: nat): State {
    State(None, now, map[], 0, replyMs, {}, [], false, false)
  }

  function Fresh(row: Option<Row>, freshAfter: int): bool {
    ReadEntry(row).Some? && ReadEntry(row).value.fetchedAt > freshAfter
  }

  /** Where an action of call `c` takes it. */
  function PhaseAfter(s: State, a: Action, c: nat): Phase
    requires c in s.callers
  {
    var me := s.callers[c];
    match a
    case Read(_) =>
      if me.phase.Checking? || me.phase.Waiting? then
        if Fresh(s.row, me.freshAfter) then Returned(ReadEntry(s.row).value.fetcher) else Acquiring
      else me.phase
    case Acquire(_) =>
      if me.phase.Acquiring? then if CanAcquire(s.row, me.freshAfter, s.now) then Acquired(s.now) else Waiting
      else me.phase
    case GiveUp(_) => if me.phase.Waiting? then Failed else me.phase
    case Reply(_) => if me.phase.Acquired? then Fetching(me.phase.at, s.now + me.timeoutMs) else me.phase
    case Fetched(_) => if me.phase.Fetching? then Writing else me.phase
    case Abort(_) => if me.phase.Fetching? then Aborted else me.phase
    case Renew(_) => if me.phase.Fetching? && !Owns(s.row, c) then Aborted else me.phase
    case DoWrite(_) => if me.phase.Writing? then Closing else me.phase
    case WriteFails(_) => if me.phase.Writing? then Closing else me.phase
    case Return(_) =>
      if me.phase.Closing? then Returned(c) else if me.phase.Aborted? then Failed else me.phase
    case _ => me.phase
  }

  predicate Owned(s: State, a: Action) {
    !a.Start? && !a.Tick? && a.call in s.callers
  }

  /** A renewal may reach the database late, so it may come from any call that acquired; a
      release comes only from a call whose fetch has ended. */
  predicate Renews(s: State, a: Action) {
    a.Renew? && a.call in s.acquirers
  }

  predicate Releases(s: State, a: Action) {
    && a.Release? && a.call in s.acquirers && a.call in s.callers
    && !s.callers[a.call].phase.Acquired? && !s.callers[a.call].phase.Fetching?
  }

  predicate Acquires(s: State, a: Action) {
    && a.Acquire? && a.call in s.callers && s.callers[a.call].phase.Acquiring?
    && CanAcquire(s.row, s.callers[a.call].freshAfter, s.now)
  }

  predicate Writes(s: State, a: Action) {
    a.DoWrite? && a.call in s.callers && s.callers[a.call].phase.Writing? && Owns(s.row, a.call)
  }

  function RowAfter(s: State, a: Action): Option<Row> {
    if Acquires(s, a) then AcquiredRow(s.row, a.call, s.callers[a.call].leaseMs, s.now)
    else if Renews(s, a) && a.call in s.callers then RenewedRow(s.row, a.call, s.callers[a.call].leaseMs, s.now)
    else if Writes(s, a) then WrittenRow(s.row, a.call, s.now)
    else if Releases(s, a) then ReleasedRow(s.row, a.call)
    else s.row
  }

  /** A call whose timeout or renewal interval is not shorter than its lease is refused at once. */
  predicate Starts(a: Action) {
    a.Start? && a.timeoutMs < a.leaseMs && a.renewMs < a.leaseMs
  }

  function CallersAfter(s: State, a: Action): map<nat, Caller> {
    if Starts(a) then
      s.callers[s.nextOwner := Caller(a.startedAt - a.ttlMs, a.ttlMs, a.leaseMs, a.timeoutMs, Checking)]
    else if Owned(s, a) then
      s.callers[a.call := s.callers[a.call].(phase := PhaseAfter(s, a, a.call))]
    else s.callers
  }

  /** The latest instant a caller in this phase may be left alone until. */
  ghost predicate Overdue(s: State, c: nat, then_: int)
    requires c in s.callers
  {
    || (s.callers[c].phase.Acquired? && then_ > s.callers[c].phase.at + s.replyMs)
    || (s.callers[c].phase.Fetching? && then_ > s.callers[c].phase.deadline)
  }

  ghost function Next(s: State, a: Action): State {
    State(
      RowAfter(s, a),
      if a.Tick? then s.now + a.ms else s.now,
      CallersAfter(s, a),
      if Starts(a) then s.nextOwner + 1 else s.nextOwner,
      s.replyMs,
      if Acquires(s, a) then s.acquirers + {a.call} else s.acquirers,
      if Writes(s, a) then s.writes + [Write(a.call, s.now)] else s.writes,
      s.clockAhead || (Starts(a) && a.startedAt > s.now),
      s.untimely || (a.Tick? && exists c :: c in s.callers && Overdue(s, c, s.now + a.ms)))
  }

  ghost function Run(s: State, actions: seq<Action>): State {
    if actions == [] then s
    else Next(Run(s, actions[..|actions| - 1]), actions[|actions| - 1])
  }

  // ---------------------------------------------------------------- the invariant

  predicate Before(phase: Phase) {
    phase.Checking? || phase.Acquiring? || phase.Waiting?
  }

  predicate Holding(phase: Phase) {
    phase.Acquired? || phase.Fetching? || phase.Aborted? || phase.Writing? || phase.Closing?
  }

  ghost predicate CallerOk(s: State, c: nat)
    requires c in s.callers
  {
    var me := s.callers[c];
    && (c in s.acquirers ==> !Before(me.phase))
    && (Holding(me.phase) ==> c in s.acquirers)
    && (!s.clockAhead ==> me.freshAfter + me.ttlMs <= s.now)
    && (me.phase.Returned? ==> me.phase.payload == c || WrittenAfter(s, me.phase.payload, me.freshAfter))
  }

  ghost predicate WrittenAfter(s: State, fetcher: nat, freshAfter: int) {
    exists i :: 0 <= i < |s.writes| && s.writes[i].writer == fetcher && s.writes[i].at > freshAfter
  }

  /** The entry in the row is the last write. */
  predicate EntryOk(s: State) {
    ReadEntry(s.row) ==
      if s.writes == [] then None
      else Some(Entry(s.writes[|s.writes| - 1].writer, s.writes[|s.writes| - 1].at))
  }

  /** Whoever owns the row found its entry stale. */
  predicate OwnerOk(s: State) {
    s.row.Some? && s.row.value.owner.Some? ==>
      && s.row.value.owner.value in s.acquirers
      && s.row.value.owner.value in s.callers
      && (s.row.value.entry.Some? ==>
            s.row.value.entry.value.fetchedAt <= s.callers[s.row.value.owner.value].freshAfter)
  }

  ghost predicate SpacingOk(s: State) {
    && (forall i :: 0 <= i < |s.writes| ==> s.writes[i].at <= s.now && s.writes[i].writer in s.callers)
    && (!s.clockAhead ==>
          forall i :: 0 < i < |s.writes| ==>
            s.writes[i].at - s.writes[i - 1].at >= s.callers[s.writes[i].writer].ttlMs)
  }

  ghost predicate Inv(s: State) {
    && (forall c :: c in s.callers ==> c < s.nextOwner)
    && (forall c :: c in s.acquirers ==> c in s.callers)
    && (forall c {:trigger CallerOk(s, c)} :: c in s.callers ==> CallerOk(s, c))
    && EntryOk(s) && OwnerOk(s) && SpacingOk(s)
  }

  lemma CallersKept(s: State, a: Action, c: nat)
    requires Inv(s) && c in Next(s, a).callers
    ensures CallerOk(Next(s, a), c)
  {
    var s' := Next(s, a);
    if c in s.callers {
      assert CallerOk(s, c);
      ReturnKept(s, a, c);
    }
  }

  /** A payload once returned stays accounted for, and a fresh one that is read was written. */
  lemma ReturnKept(s: State, a: Action, c: nat)
    requires c in s.callers && CallerOk(s, c) && EntryOk(s) && c in Next(s, a).callers && c != s.nextOwner
    ensures var me := Next(s, a).callers[c];
      me.phase.Returned? ==> me.phase.payload == c || WrittenAfter(Next(s, a), me.phase.payload, me.freshAfter)
  {
    var before, after := s.callers[c].phase, Next(s, a).callers[c].phase;
    if after.Returned? && after.payload != c {
      if before != after {
        assert s.writes[|s.writes| - 1].writer == after.payload;
        assert WrittenAfter(s, after.payload, s.callers[c].freshAfter);
      }
      WrittenStays(s, a, after.payload, s.callers[c].freshAfter);
    }
  }

  lemma WrittenStays(s: State, a: Action, fetcher: nat, freshAfter: int)
    requires WrittenAfter(s, fetcher, freshAfter)
    ensures WrittenAfter(Next(s, a), fetcher, freshAfter)
  {
    var i :| 0 <= i < |s.writes| && s.writes[i].writer == fetcher && s.writes[i].at > freshAfter;
    assert Next(s, a).writes[i] == s.writes[i];
  }

  lemma RowKept(s: State, a: Action)
    requires Inv(s)
    ensures EntryOk(Next(s, a)) && OwnerOk(Next(s, a))
  {
  }

  lemma SpacingKept(s: State, a: Action)
    requires Inv(s)
    ensures SpacingOk(Next(s, a))
  {
    if Writes(s, a) {
      assert CallerOk(s, a.call);
    }
  }

  lemma NextKept(s: State, a: Action)
    requires Inv(s)
    ensures Inv(Next(s, a))
  {
    forall c | c in Next(s, a).callers
      ensures CallerOk(Next(s, a), c)
    {
      CallersKept(s, a, c);
    }
    RowKept(s, a);
    SpacingKept(s, a);
  }

  lemma {:induction false} Reachable(now: int, replyMs: nat, actions: seq<Action>)
    ensures Inv(Run(Init(now, replyMs), actions))
  {
    if actions != [] {
      Reachable(now, replyMs, actions[..|actions| - 1]);
      NextKept(Run(Init(now, replyMs), actions[..|actions| - 1]), actions[|actions| - 1]);
    }
  }

  // ---------------------------------------------------------------- what every run keeps

  /** Two successive writes are at least the second caller's time to live apart, whatever
      leases expire and whichever replies are late. */
  lemma WritesAreSpaced(now: int, replyMs: nat, actions: seq<Action>, i: nat)
    requires !Run(Init(now, replyMs), actions).clockAhead
    requires 0 < i < |Run(Init(now, replyMs), actions).writes|
    ensures var s := Run(Init(now, replyMs), actions);
      && s.writes[i].writer in s.callers
      && s.writes[i].at - s.writes[i - 1].at >= s.callers[s.writes[i].writer].ttlMs
  {
    Reachable(now, replyMs, actions);
  }

  /** The start that made a call, and what the call keeps of it. */
  ghost predicate Started(s: State, c: nat, a: Action) {
    && c in s.callers && a.Start?
    && s.callers[c].freshAfter + a.ttlMs == a.startedAt
    && s.callers[c].ttlMs == a.ttlMs && s.callers[c].leaseMs == a.leaseMs && s.callers[c].timeoutMs == a.timeoutMs
    && a.timeoutMs < a.leaseMs && a.renewMs < a.leaseMs
  }

  lemma {:induction false} EveryCallStarted(now: int, replyMs: nat, actions: seq<Action>, c: nat) returns (i: nat)
    requires c in Run(Init(now, replyMs), actions).callers
    ensures i < |actions| && Started(Run(Init(now, replyMs), actions), c, actions[i])
    ensures Run(Init(now, replyMs), actions[..i]).nextOwner == c
  {
    var n := |actions| - 1;
    var s, a := Run(Init(now, replyMs), actions[..n]), actions[n];
    if Starts(a) && c == s.nextOwner {
      i := n;
    } else {
      i := EveryCallStarted(now, replyMs, actions[..n], c);
      assert actions[..n][..i] == actions[..i];
    }
  }

  /** A returned payload was fetched by the call itself, or written by somebody later than
      the call's start less its time to live. */
  lemma ReturnsAreFresh(now: int, replyMs: nat, actions: seq<Action>, c: nat) returns (i: nat)
    requires var s := Run(Init(now, replyMs), actions); c in s.callers && s.callers[c].phase.Returned?
    ensures i < |actions| && Started(Run(Init(now, replyMs), actions), c, actions[i])
    ensures Run(Init(now, replyMs), actions[..i]).nextOwner == c
    ensures var s := Run(Init(now, replyMs), actions);
      || s.callers[c].phase.payload == c
      || WrittenAfter(s, s.callers[c].phase.payload, actions[i].startedAt - actions[i].ttlMs)
  {
    Reachable(now, replyMs, actions);
    assert CallerOk(Run(Init(now, replyMs), actions), c);
    i := EveryCallStarted(now, replyMs, actions, c);
  }

  lemma {:induction false} RunConcat(s: State, first: seq<Action>, more: seq<Action>)
    ensures Run(s, first + more) == Run(Run(s, first), more)
  {
    if more == [] {
      assert first + more == first;
    } else {
      var all := first + more;
      assert all[..|all| - 1] == first + more[..|more| - 1];
      RunConcat(s, first, more[..|more| - 1]);
    }
  }

  /** A call that acquired the row and lost it to somebody else never gets it back, */
  lemma {:induction false} DisplacedStays(s: State, more: seq<Action>, c: nat)
    requires Inv(s) && c in s.acquirers && !Owns(s.row, c)
    ensures Inv(Run(s, more)) && c in Run(s, more).acquirers && !Owns(Run(s, more).row, c)
  {
    if more != [] {
      var before, a := Run(s, more[..|more| - 1]), more[|more| - 1];
      DisplacedStays(s, more[..|more| - 1], c);
      NextKept(before, a);
      assert CallerOk(before, c);
    }
  }

  /** ... so from then on its renewals, its write and its release change nothing. */
  lemma DisplacedIsHarmless(now: int, replyMs: nat, actions: seq<Action>, more: seq<Action>, c: nat, a: Action)
    requires var s := Run(Init(now, replyMs), actions); c in s.acquirers && !Owns(s.row, c)
    requires a == Renew(c) || a == DoWrite(c) || a == Release(c)
    ensures var s := Run(Init(now, replyMs), actions + more);
      Next(s, a).row == s.row && Next(s, a).writes == s.writes
  {
    Reachable(now, replyMs, actions);
    RunConcat(Init(now, replyMs), actions, more);
    DisplacedStays(Run(Init(now, replyMs), actions), more, c);
  }

  // ---------------------------------------------------------------- one fetch at a time

  /** Every caller's reply delay and timeout together stay below its lease. */
  predicate Tight(s: State) {
    forall c :: c in s.callers ==> s.replyMs + s.callers[c].timeoutMs < s.callers[c].leaseMs
  }

  predicate Secured(s: State, c: nat, at: int)
    requires c in s.callers
  {
    && Owns(s.row, c)
    && s.row.value.leaseUntil.Some?
    && at <= s.now
    && s.row.value.leaseUntil.value >= at + s.callers[c].leaseMs
  }

  ghost predicate TimedOk(s: State, c: nat)
    requires c in s.callers
  {
    match s.callers[c].phase
    case Acquired(at) => Secured(s, c, at) && s.now <= at + s.replyMs
    case Fetching(at, deadline) =>
      Secured(s, c, at) && s.now <= deadline <= at + s.replyMs + s.callers[c].timeoutMs
    case _ => true
  }

  ghost predicate AllTimed(s: State) {
    forall c {:trigger TimedOk(s, c)} :: c in s.callers ==> TimedOk(s, c)
  }

  /** While a lease runs nobody but its holder can touch the row's ownership. */
  lemma SecuredKept(s: State, a: Action, c: nat, at: int)
    requires c in s.callers && c in Next(s, a).callers && Secured(s, c, at)
    requires s.callers[c].phase.Acquired? || s.callers[c].phase.Fetching?
    requires s.now < at + s.callers[c].leaseMs
    requires c != s.nextOwner
    ensures Secured(Next(s, a), c, at)
  {
    assert !Acquires(s, a);
    assert Next(s, a).callers[c].leaseMs == s.callers[c].leaseMs;
  }

  /** A call that was not timed before is so now only because it has just acquired. */
  lemma FirstTimed(s: State, a: Action, c: nat)
    requires c in s.callers && c in Next(s, a).callers && c != s.nextOwner
    requires !s.callers[c].phase.Acquired? && !s.callers[c].phase.Fetching?
    ensures TimedOk(Next(s, a), c)
  {
    assert Next(s, a).callers[c].phase.Acquired? ==> Acquires(s, a) && a.call == c;
    assert !Next(s, a).callers[c].phase.Fetching?;
  }

  lemma AcquiredTimed(s: State, a: Action, c: nat, at: int)
    requires c in s.callers && c in Next(s, a).callers && TimedOk(s, c) && c != s.nextOwner
    requires s.callers[c].phase == Acquired(at) && s.replyMs + s.callers[c].timeoutMs < s.callers[c].leaseMs
    requires a.Tick? ==> !Overdue(s, c, s.now + a.ms)
    ensures TimedOk(Next(s, a), c)
  {
    SecuredKept(s, a, c, at);
    assert Next(s, a).callers[c].phase == Acquired(at)
        || (a.Reply? && Next(s, a).callers[c].phase == Fetching(at, s.now + s.callers[c].timeoutMs));
  }

  lemma FetchingTimed(s: State, a: Action, c: nat, at: int)
    requires c in s.callers && c in Next(s, a).callers && TimedOk(s, c) && c != s.nextOwner
    requires s.callers[c].phase.Fetching? && s.callers[c].phase.at == at
    requires s.replyMs + s.callers[c].timeoutMs < s.callers[c].leaseMs
    requires a.Tick? ==> !Overdue(s, c, s.now + a.ms)
    ensures TimedOk(Next(s, a), c)
  {
    SecuredKept(s, a, c, at);
    assert Next(s, a).callers[c].phase == s.callers[c].phase || !Next(s, a).callers[c].phase.Fetching?;
  }

  lemma TimedKept(s: State, a: Action, c: nat)
    requires Inv(s) && Tight(s) && !Next(s, a).untimely && c in Next(s, a).callers
    requires c in s.callers ==> TimedOk(s, c)
    ensures TimedOk(Next(s, a), c)
  {
    if c in s.callers {
      assert CallerOk(s, c);
      if a.Tick? {
        assert !Overdue(s, c, s.now + a.ms);
      }
      match s.callers[c].phase
      case Acquired(at) => AcquiredTimed(s, a, c, at);
      case Fetching(at, _) => FetchingTimed(s, a, c, at);
      case _ => FirstTimed(s, a, c);
    }
  }

  lemma TightBefore(s: State, a: Action)
    requires Inv(s) && Tight(Next(s, a))
    ensures Tight(s)
  {
    forall c | c in s.callers
      ensures s.replyMs + s.callers[c].timeoutMs < s.callers[c].leaseMs
    {
      assert Next(s, a).callers[c].timeoutMs == s.callers[c].timeoutMs;
    }
  }

  lemma {:induction false} TimedReachable(now: int, replyMs: nat, actions: seq<Action>)
    requires var s := Run(Init(now, replyMs), actions); Tight(s) && !s.untimely
    ensures AllTimed(Run(Init(now, replyMs), actions))
  {
    if actions != [] {
      var s, a := Run(Init(now, replyMs), actions[..|actions| - 1]), actions[|actions| - 1];
      Reachable(now, replyMs, actions[..|actions| - 1]);
      TightBefore(s, a);
      TimedReachable(now, replyMs, actions[..|actions| - 1]);
      forall c | c in Next(s, a).callers
        ensures TimedOk(Next(s, a), c)
      {
        if c in s.callers {
          assert TimedOk(s, c);
        }
        TimedKept(s, a, c);
      }
    }
  }

  /** If replies and timers are on time, no two fetches that are not aborted ever overlap,
      whatever becomes of the renewals. */
  lemma SingleFlight(now: int, replyMs: nat, actions: seq<Action>, c: nat, d: nat)
    requires var s := Run(Init(now, replyMs), actions);
      && Tight(s) && !s.untimely
      && c in s.callers && s.callers[c].phase.Fetching?
      && d in s.callers && s.callers[d].phase.Fetching?
    ensures c == d
  {
    var s := Run(Init(now, replyMs), actions);
    TimedReachable(now, replyMs, actions);
    assert TimedOk(s, c);
    assert TimedOk(s, d);
  }

  lemma Extend(start: State, actions: seq<Action>, s: State, a: Action) returns (longer: seq<Action>, s': State)
    requires s == Run(start, actions)
    ensures longer == actions + [a] && s' == Next(s, a) && s' == Run(start, longer)
  {
    longer, s' := actions + [a], Next(s, a);
    assert longer[..|longer| - 1] == actions;
  }

  /** The bound is exact: as soon as the reply delay and the timeout together reach the lease,
      a timeout and a renewal interval shorter than the lease, which is all a call checks, do
      not prevent two fetches from overlapping, although every reply and every timer is on
      time, if no renewal reaches the database before the lease runs out. */
  lemma OverlapAtTheBound(replyMs: nat, ttlMs: nat, leaseMs: nat, timeoutMs: nat, renewMs: nat)
      returns (actions: seq<Action>)
    requires timeoutMs < leaseMs <= replyMs + timeoutMs && renewMs < leaseMs
    ensures var s := Run(Init(0, replyMs), actions);
      && !s.untimely && !s.clockAhead && 0 in s.callers && 1 in s.callers
      && s.callers[0].phase.Fetching? && s.callers[1].phase.Fetching?
  {
    var start := Init(0, replyMs);
    var s := start;
    actions := [];
    actions, s := Extend(start, actions, s, Start(0, ttlMs, leaseMs, timeoutMs, renewMs));
    actions, s := Extend(start, actions, s, Read(0));
    actions, s := Extend(start, actions, s, Acquire(0));
    assert s.callers == map[0 := Caller(0 - ttlMs, ttlMs, leaseMs, timeoutMs, Acquired(0))];
    actions, s := Extend(start, actions, s, Tick(leaseMs - timeoutMs));
    actions, s := Extend(start, actions, s, Reply(0));
    assert s.callers == map[0 := Caller(0 - ttlMs, ttlMs, leaseMs, timeoutMs, Fetching(0, leaseMs))];
    actions, s := OverlapContinues(start, actions, s, ttlMs, leaseMs, timeoutMs, renewMs);
  }

  lemma OverlapContinues(start: State, before: seq<Action>, s: State, ttlMs: nat, leaseMs: nat, timeoutMs: nat,
      renewMs: nat)
    returns (actions: seq<Action>, s': State)
    requires s == Run(start, before) && timeoutMs < leaseMs && renewMs < leaseMs && !s.untimely && !s.clockAhead
    requires s.now == leaseMs - timeoutMs && s.nextOwner == 1 && s.row == Some(Row(None, Some(0), Some(leaseMs)))
    requires s.callers == map[0 := Caller(0 - ttlMs, ttlMs, leaseMs, timeoutMs, Fetching(0, leaseMs))]
    ensures s' == Run(start, actions) && !s'.untimely && !s'.clockAhead && 0 in s'.callers && 1 in s'.callers
    ensures s'.callers[0].phase.Fetching? && s'.callers[1].phase.Fetching?
  {
    actions, s' := Extend(start, before, s, Tick(timeoutMs));
    actions, s' := Extend(start, actions, s', Start(leaseMs, ttlMs, leaseMs, timeoutMs, renewMs));
    actions, s' := Extend(start, actions, s', Read(1));
    actions, s' := Extend(start, actions, s', Acquire(1));
    assert s'.callers[1].phase.Acquired?;
    actions, s' := Extend(start, actions, s', Reply(1));
  }

  // ---------------------------------------------------------------- when a lease runs and when it ends

  /** The action gives `c` a lease: it acquires, or renews what it owns. */
  predicate Grants(s: State, a: Action, c: nat) {
    && c in s.callers
    && ((a == Acquire(c) && Acquires(s, a)) || (a == Renew(c) && c in s.acquirers && Owns(s.row, c)))
  }

  /** The action gives up what `c` owns: a release after the fetch, or a write that takes effect. */
  predicate Yields(s: State, a: Action, c: nat) {
    && c in s.callers && Owns(s.row, c)
    && ((a == Release(c) && Releases(s, a)) || (a == DoWrite(c) && s.callers[c].phase.Writing?))
  }

  /** A call that is about to acquire, for which the entry in the row is not fresh. */
  predicate InNeed(s: State, d: nat) {
    d in s.callers && s.callers[d].phase.Acquiring? && !Fresh(s.row, s.callers[d].freshAfter)
  }

  /** A lease keeps another call out for its length, and not a millisecond longer. */
  lemma LeaseRunsExactly(s: State, a: Action, c: nat, d: nat, ms: nat)
    requires Grants(s, a, c) && InNeed(s, d) && d != c
    ensures var t := Next(Next(s, a), Tick(ms));
      Next(t, Acquire(d)).callers[d].phase == if ms >= s.callers[c].leaseMs then Acquired(t.now) else Waiting
  {
    var t := Next(Next(s, a), Tick(ms));
    assert t.callers[d] == s.callers[d] && ReadEntry(t.row) == ReadEntry(s.row);
    assert t.row.value.leaseUntil == Some(s.now + s.callers[c].leaseMs) && t.now == s.now + ms;
  }

  /** Given up, the lease is free at once for whoever needs it. */
  lemma LeaseEndsAtOnce(s: State, a: Action, c: nat, d: nat)
    requires Yields(s, a, c) && InNeed(Next(s, a), d)
    ensures Next(Next(s, a), Acquire(d)).callers[d].phase == Acquired(s.now)
  {
    var t := Next(s, a);
    assert t.row.value.leaseUntil.None?;
  }

  /** As long as nobody has acquired, whoever asks does. */
  lemma FirstIsServed(now: int, replyMs: nat, actions: seq<Action>, d: nat)
    requires var s := Run(Init(now, replyMs), actions);
      s.acquirers == {} && d in s.callers && s.callers[d].phase.Acquiring?
    ensures var s := Run(Init(now, replyMs), actions); Next(s, Acquire(d)).callers[d].phase == Acquired(s.now)
  {
    Untouched(now, replyMs, actions);
  }

  lemma {:induction false} Untouched(now: int, replyMs: nat, actions: seq<Action>)
    requires Run(Init(now, replyMs), actions).acquirers == {}
    ensures Run(Init(now, replyMs), actions).row.None?
  {
    if actions != [] {
      var s, a := Run(Init(now, replyMs), actions[..|actions| - 1]), actions[|actions| - 1];
      assert s.acquirers <= Next(s, a).acquirers;
      Untouched(now, replyMs, actions[..|actions| - 1]);
    }
  }

  /** The lease of `c` runs until `end` at least. */
  predicate Leased(s: State, c: nat, end: int) {
    && c in s.acquirers && c in s.callers && !Before(s.callers[c].phase)
    && Owns(s.row, c) && s.row.value.leaseUntil.Some? && s.row.value.leaseUntil.value >= end
  }

  lemma LeasedKept(s: State, a: Action, c: nat, end: int)
    requires Leased(s, c, end) && s.now < end && end <= s.now + s.callers[c].leaseMs && c < s.nextOwner
    requires !Yields(s, a, c)
    ensures Leased(Next(s, a), c, end) && Next(s, a).acquirers == s.acquirers
    ensures Next(s, a).callers[c].leaseMs == s.callers[c].leaseMs
  {
    assert !Acquires(s, a);
  }

  /** From a grant on, until the lease is over or given up, its holder keeps the row and nobody
      acquires, whatever all the others do. */
  lemma {:induction false} LeaseKeepsOthersOut(s: State, a: Action, c: nat, more: seq<Action>)
    requires Inv(s) && Grants(s, a, c)
    requires Run(Next(s, a), more).now < s.now + s.callers[c].leaseMs
    requires forall i :: 0 <= i < |more| ==> !Yields(Run(Next(s, a), more[..i]), more[i], c)
    ensures var t := Run(Next(s, a), more);
      Leased(t, c, s.now + s.callers[c].leaseMs) && t.acquirers == Next(s, a).acquirers
      && c < t.nextOwner && s.now <= t.now && t.callers[c].leaseMs == s.callers[c].leaseMs
  {
    if more == [] {
      assert CallerOk(s, c);
    } else {
      var before, last := more[..|more| - 1], more[|more| - 1];
      assert forall i :: 0 <= i < |before| ==> before[..i] == more[..i];
      LeaseKeepsOthersOut(s, a, c, before);
      LeasedKept(Run(Next(s, a), before), last, c, s.now + s.callers[c].leaseMs);
    }
  }

  // ---------------------------------------------------------------- how a call ends

  /** A write that takes effect is what every call reads for which it is fresh. */
  lemma WriteIsRead(s: State, c: nat, d: nat)
    requires Writes(s, DoWrite(c)) && d in s.callers && d != c
    requires s.callers[d].phase.Checking? || s.callers[d].phase.Waiting?
    ensures var t := Next(s, DoWrite(c));
      Next(t, Read(d)).callers[d].phase == if s.callers[d].freshAfter < s.now then Returned(c) else Acquiring
  {
    var t := Next(s, DoWrite(c));
    assert t.callers[d] == s.callers[d] && ReadEntry(t.row) == Some(Entry(c, s.now));
  }

  lemma RunThree(s: State, a: Action, b: Action, c: Action)
    ensures Run(s, [a, b, c]) == Next(Next(Next(s, a), b), c)
  {
    assert [a, b, c][..2] == [a, b] && [a, b][..1] == [a] && [a][..0] == [];
    assert Run(s, [a]) == Next(s, a);
    assert Run(s, [a, b]) == Next(Next(s, a), b);
  }

  /** A fetch that succeeds is returned, whether its write takes effect or is refused; the row
      holds it exactly if the call still owned the row. */
  lemma FetchIsReturned(s: State, c: nat)
    requires c in s.callers && s.callers[c].phase.Fetching?
    ensures var t := Run(s, [Fetched(c), DoWrite(c), Return(c)]);
      && c in t.callers && t.callers[c].phase == Returned(c)
      && t.row == if Owns(s.row, c) then Some(Row(Some(Entry(c, s.now)), None, None)) else s.row
  {
    RunThree(s, Fetched(c), DoWrite(c), Return(c));
    var s1 := Next(s, Fetched(c));
    assert s1.row == s.row && s1.callers[c].phase == Writing;
    assert Next(s1, DoWrite(c)).callers[c].phase == Closing;
  }

  /** ... and is returned as well if its write is lost. */
  lemma FetchIsReturnedAnyway(s: State, c: nat)
    requires c in s.callers && s.callers[c].phase.Fetching?
    ensures var t := Run(s, [Fetched(c), WriteFails(c), Return(c)]);
      c in t.callers && t.callers[c].phase == Returned(c) && t.row == s.row
  {
    RunThree(s, Fetched(c), WriteFails(c), Return(c));
    var s1 := Next(s, Fetched(c));
    assert s1.row == s.row && s1.callers[c].phase == Writing;
    assert Next(s1, WriteFails(c)).callers[c].phase == Closing && Next(s1, WriteFails(c)).row == s.row;
  }

  /** A renewal stops the fetch of a call exactly if the call has lost the row; a call that is
      stopped fails, having given up whatever it still owned. */
  lemma LostLeaseAborts(s: State, c: nat)
    requires c in s.callers && s.callers[c].phase.Fetching? && c in s.acquirers
    ensures Next(s, Renew(c)).callers[c].phase == if Owns(s.row, c) then s.callers[c].phase else Aborted
    ensures var t := Run(s, [Abort(c), Release(c), Return(c)]);
      c in t.callers && t.callers[c].phase == Failed && !Owns(t.row, c) && ReadEntry(t.row) == ReadEntry(s.row)
  {
    RunThree(s, Abort(c), Release(c), Return(c));
    var s1 := Next(s, Abort(c));
    assert s1.callers[c].phase == Aborted && s1.row == s.row;
    assert Releases(s1, Release(c));
  }

  // ---------------------------------------------------------------- the wait loop

  /** One round: the caller's clock, then what the read and the acquire after the wait say. */
  datatype Round = Round(now: int, entry: Option<Entry>, acquired: bool)

  datatype Waited = Won | Hit(entry: Entry) | TimedOut

  predicate Decides(round: Round, startedAt: int, freshAfter: int, maxWaitMs: int) {
    || round.now - startedAt >= maxWaitMs
    || (round.entry.Some? && round.entry.value.fetchedAt > freshAfter)
    || round.acquired
  }

  /** A caller that did not acquire at once polls until it reads a fresh entry, acquires, or
      has waited too long; if its clock moves by at least the wait interval a round, it does
      so within a number of rounds fixed beforehand. */
  method AwaitRefresh(startedAt: int, freshAfter: int, waitIntervalMs: nat, maxWaitMs: nat,
                      acquiredAtOnce: bool, rounds: nat -> Round)
    returns (outcome: Waited, last: nat)
    requires waitIntervalMs > 0 && startedAt <= rounds(0).now
    requires forall k: nat :: rounds(k).now + waitIntervalMs <= rounds(k + 1).now
    ensures acquiredAtOnce ==> outcome == Won
    ensures !acquiredAtOnce ==>
      && (forall k :: 0 <= k < last ==> !Decides(rounds(k), startedAt, freshAfter, maxWaitMs))
      && Decides(rounds(last), startedAt, freshAfter, maxWaitMs)
      && (outcome.TimedOut? <==> rounds(last).now - startedAt >= maxWaitMs)
      && (outcome.Hit? ==> rounds(last).entry == Some(outcome.entry) && outcome.entry.fetchedAt > freshAfter)
      && (outcome.Won? ==> rounds(last).acquired)
    ensures last * waitIntervalMs < maxWaitMs + waitIntervalMs
  {
    var acquired := acquiredAtOnce;
    last := 0;
    while !acquired
      invariant acquired ==> acquiredAtOnce && last == 0
      invariant forall k :: 0 <= k < last ==> !Decides(rounds(k), startedAt, freshAfter, maxWaitMs)
      invariant last * waitIntervalMs <= rounds(last).now - startedAt
      invariant last * waitIntervalMs < maxWaitMs + waitIntervalMs
      decreases !acquired, maxWaitMs + waitIntervalMs - last * waitIntervalMs
    {
      var round := rounds(last);
      if round.now - startedAt >= maxWaitMs {
        return TimedOut, last;
      }
      if round.entry.Some? && round.entry.value.fetchedAt > freshAfter {
        return Hit(round.entry.value), last;
      }
      if round.acquired {
        return Won, last;
      }
      assert last * waitIntervalMs < maxWaitMs;
      assert (last + 1) * waitIntervalMs == last * waitIntervalMs + waitIntervalMs;
      last := last + 1;
    }
    outcome := Won;
  }
}
