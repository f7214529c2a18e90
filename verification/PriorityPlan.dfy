/** The due times of a priority target: far apart until six hours before kickoff, close
    together from then on. */
module PriorityPlan {
  import opened Wrappers

  const ACTIVE_WINDOW_MS := 6 * 60 * 60 * 1000
  const CHECKPOINT_LIMIT := 2000

  datatype Checkpoint = Checkpoint(index: nat, dueAt: int, dueWindowEnd: int)

  datatype Refusal = NotBeforeKickoff | BadInterval | TooMany

  /** How many steps of `width` it takes to cover `span`. */
  function Ceil(span: nat, width: nat): nat
    requires width > 0
  {
    (span + width - 1) / width
  }

  function PlanSize(activated: int, kickoff: int, far: nat, active: nat): nat
    requires activated < kickoff && far > 0 && active > 0
  {
    var start := kickoff - ACTIVE_WINDOW_MS;
    if activated < start then Ceil(start - activated, far) + Ceil(ACTIVE_WINDOW_MS, active)
    else Ceil(kickoff - activated, active)
  }

  lemma WideEnough(factor: int, width: int)
    requires width > 0
    ensures factor >= 1 ==> factor * width >= width
    ensures factor <= -1 ==> factor * width <= -width
  {
  }

  lemma Quotient(value: int, width: int, q: int)
    requires width > 0 && q * width <= value < q * width + width
    ensures value / width == q
  {
    WideEnough(value / width - q, width);
    assert value == width * (value / width) + value % width;
    assert (value / width - q) * width == (value / width) * width - q * width;
  }

  /** One step earlier takes one step more. */
  lemma CeilStep(span: nat, width: nat)
    requires width > 0
    ensures Ceil(0, width) == 0
    ensures 0 < span <= width ==> Ceil(span, width) == 1
    ensures span > width ==> Ceil(span, width) == Ceil(span - width, width) + 1
  {
    Quotient(width - 1, width, 0);
    if 0 < span <= width {
      Quotient(span + width - 1, width, 1);
    }
    if span > width {
      var q := (span - 1) / width;
      assert q * width <= span - 1 < q * width + width;
      Quotient(span + width - 1, width, q + 1);
    }
  }

  function NextCursor(cursor: int, kickoff: int, far: nat, active: nat): int {
    var start := kickoff - ACTIVE_WINDOW_MS;
    if cursor < start then (if cursor + far < start then cursor + far else start) else cursor + active
  }

  /** How many times the cursor stops before kickoff, from `cursor` on. */
  function Stops(cursor: int, kickoff: int, far: nat, active: nat): nat
    requires far > 0 && active > 0
    decreases kickoff - cursor
  {
    if cursor < kickoff then 1 + Stops(NextCursor(cursor, kickoff, far, active), kickoff, far, active) else 0
  }

  lemma {:induction false} StopsInClosedForm(cursor: int, kickoff: int, far: nat, active: nat)
    requires far > 0 && active > 0 && cursor < kickoff
    ensures Stops(cursor, kickoff, far, active) == PlanSize(cursor, kickoff, far, active)
    decreases kickoff - cursor
  {
    var start := kickoff - ACTIVE_WINDOW_MS;
    var next := NextCursor(cursor, kickoff, far, active);
    if next < kickoff {
      StopsInClosedForm(next, kickoff, far, active);
    }
    if cursor < start {
      CeilStep(start - cursor, far);
    } else {
      CeilStep(kickoff - cursor, active);
    }
  }

  /** The windows of a plan tile the time from activation to kickoff without gap or overlap. */
  ghost predicate Tiles(plan: seq<Checkpoint>, from: int, to: int) {
    && plan != []
    && plan[0].dueAt == from
    && plan[|plan| - 1].dueWindowEnd == to
    && (forall i :: 0 <= i < |plan| ==> plan[i].index == i && plan[i].dueAt < plan[i].dueWindowEnd)
    && (forall i :: 0 <= i < |plan| - 1 ==> plan[i].dueWindowEnd == plan[i + 1].dueAt)
  }

  /** Every instant from activation to kickoff lies in exactly one window. */
  lemma {:induction false} ExactlyOneWindow(plan: seq<Checkpoint>, from: int, to: int, instant: int) returns (i: nat)
    requires Tiles(plan, from, to) && from <= instant < to
    ensures i < |plan| && plan[i].dueAt <= instant < plan[i].dueWindowEnd
    ensures forall j :: 0 <= j < |plan| && plan[j].dueAt <= instant < plan[j].dueWindowEnd ==> j == i
  {
    i := 0;
    while instant >= plan[i].dueWindowEnd
      invariant i < |plan| && plan[i].dueAt <= instant
      invariant forall j :: 0 <= j < i ==> plan[j].dueWindowEnd <= instant
      decreases |plan| - i
    {
      i := i + 1;
    }
    forall j | i < j < |plan|
      ensures plan[j].dueAt > instant
    {
      LaterStartsLater(plan, from, to, i, j);
    }
  }

  lemma {:induction false} LaterStartsLater(plan: seq<Checkpoint>, from: int, to: int, i: nat, j: nat)
    requires Tiles(plan, from, to) && i < j < |plan|
    ensures plan[i].dueWindowEnd <= plan[j].dueAt
  {
    if i + 1 < j {
      LaterStartsLater(plan, from, to, i, j - 1);
    }
  }

  ghost predicate Increasing(times: seq<int>) {
    forall i, j :: 0 <= i < j < |times| ==> times[i] < times[j]
  }

  /** Each time follows the one before by the interval in force, cut short at the active window. */
  ghost predicate Spaced(times: seq<int>, kickoff: int, far: nat, active: nat)
    requires far > 0 && active > 0
  {
    forall i {:trigger SpacedAt(times, kickoff, far, active, i)} :: 0 <= i < |times| - 1 ==>
        SpacedAt(times, kickoff, far, active, i)
  }

  ghost predicate SpacedAt(times: seq<int>, kickoff: int, far: nat, active: nat, i: nat)
    requires i < |times| - 1
  {
    var start := kickoff - ACTIVE_WINDOW_MS;
    times[i + 1] - times[i] == if times[i] >= start then active
        else if start - times[i] < far then start - times[i] else far
  }

  lemma OneMoreTime(times: seq<int>, kickoff: int, far: nat, active: nat, next: int)
    requires far > 0 && active > 0 && times != [] && Increasing(times) && Spaced(times, kickoff, far, active)
    requires next == NextCursor(times[|times| - 1], kickoff, far, active)
    ensures Increasing(times + [next]) && Spaced(times + [next], kickoff, far, active)
  {
    var longer := times + [next];
    forall i | 0 <= i < |longer| - 1
      ensures SpacedAt(longer, kickoff, far, active, i)
    {
      assert i < |times| - 1 ==> SpacedAt(times, kickoff, far, active, i);
    }
  }

  /** The loop that collects the due times, until it is done or has collected too many. */
  method DueTimes(activated: int, kickoff: int, far: nat, active: nat) returns (dueTimes: seq<int>)
    requires activated < kickoff && far > 0 && active > 0
    ensures dueTimes != [] && dueTimes[0] == activated && dueTimes[|dueTimes| - 1] < kickoff
    ensures Increasing(dueTimes) && Spaced(dueTimes, kickoff, far, active)
    ensures |dueTimes| <= CHECKPOINT_LIMIT <==> Stops(activated, kickoff, far, active) <= CHECKPOINT_LIMIT
    ensures |dueTimes| <= CHECKPOINT_LIMIT ==>
      && |dueTimes| == Stops(activated, kickoff, far, active)
      && (activated <= kickoff - ACTIVE_WINDOW_MS ==> kickoff - ACTIVE_WINDOW_MS in dueTimes)
  {
    var activeWindowStart := kickoff - ACTIVE_WINDOW_MS;
    dueTimes := [activated];
    var cursor := activated;
    while cursor < kickoff
      invariant dueTimes != [] && dueTimes[0] == activated && |dueTimes| <= CHECKPOINT_LIMIT
      invariant Increasing(dueTimes) && dueTimes[|dueTimes| - 1] < kickoff
      invariant Spaced(dueTimes, kickoff, far, active)
      invariant cursor < kickoff ==> cursor == dueTimes[|dueTimes| - 1]
      invariant Stops(activated, kickoff, far, active) ==
                  |dueTimes| - (if cursor < kickoff then 1 else 0) + Stops(cursor, kickoff, far, active)
      invariant activated <= activeWindowStart <= cursor ==> activeWindowStart in dueTimes
      decreases kickoff - cursor
    {
      ghost var next := NextCursor(cursor, kickoff, far, active);
      cursor :=
        if cursor < activeWindowStart
        then (if cursor + far < activeWindowStart then cursor + far else activeWindowStart)
        else cursor + active;
      assert cursor == next;
      OneMoreTime(dueTimes, kickoff, far, active, next);
      if cursor < kickoff && cursor != dueTimes[|dueTimes| - 1] {
        dueTimes := dueTimes + [cursor];
      }
      if |dueTimes| > CHECKPOINT_LIMIT {
        return;
      }
    }
  }

  function WindowAt(dueTimes: seq<int>, kickoff: int, k: nat): Checkpoint
    requires k < |dueTimes|
  {
    Checkpoint(k, dueTimes[k], if k + 1 < |dueTimes| then dueTimes[k + 1] else kickoff)
  }

  /** Each due time opens a window that ends at the next one, the last at kickoff. */
  method Windows(dueTimes: seq<int>, kickoff: int) returns (plan: seq<Checkpoint>)
    requires dueTimes != [] && Increasing(dueTimes) && dueTimes[|dueTimes| - 1] < kickoff
    ensures |plan| == |dueTimes| && Tiles(plan, dueTimes[0], kickoff)
    ensures forall i :: 0 <= i < |plan| ==> plan[i].dueAt == dueTimes[i]
  {
    plan := [];
    for i := 0 to |dueTimes|
      invariant |plan| == i
      invariant forall k :: 0 <= k < i ==> plan[k] == WindowAt(dueTimes, kickoff, k)
    {
      plan := plan + [WindowAt(dueTimes, kickoff, i)];
    }
  }

  function DueOf(plan: seq<Checkpoint>): (times: seq<int>)
    ensures |times| == |plan| && forall i :: 0 <= i < |times| ==> times[i] == plan[i].dueAt
  {
    seq(|plan|, i requires 0 <= i < |plan| => plan[i].dueAt)
  }

  method PlanPriorityCheckpoints(activated: int, kickoff: int, farIntervalMs: int, activeIntervalMs: int)
    returns (result: Result<seq<Checkpoint>, Refusal>)
    ensures result == Err(NotBeforeKickoff) <==> activated >= kickoff
    ensures result == Err(BadInterval) <==> activated < kickoff && (farIntervalMs <= 0 || activeIntervalMs <= 0)
    ensures activated < kickoff && farIntervalMs > 0 && activeIntervalMs > 0 ==>
      var size := PlanSize(activated, kickoff, farIntervalMs, activeIntervalMs);
      && (result.Ok? <==> size <= CHECKPOINT_LIMIT)
      && (result.Ok? ==>
            && |result.value| == size
            && Tiles(result.value, activated, kickoff)
            && Spaced(DueOf(result.value), kickoff, farIntervalMs, activeIntervalMs)
            && (activated <= kickoff - ACTIVE_WINDOW_MS ==>
                  exists i :: 0 <= i < |result.value| && result.value[i].dueAt == kickoff - ACTIVE_WINDOW_MS))
  {
    if activated >= kickoff {
      return Err(NotBeforeKickoff);
    }
    if farIntervalMs <= 0 || activeIntervalMs <= 0 {
      return Err(BadInterval);
    }
    StopsInClosedForm(activated, kickoff, farIntervalMs, activeIntervalMs);
    var dueTimes := DueTimes(activated, kickoff, farIntervalMs, activeIntervalMs);
    if |dueTimes| > CHECKPOINT_LIMIT {
      return Err(TooMany);
    }
    var plan := Windows(dueTimes, kickoff);
    if activated <= kickoff - ACTIVE_WINDOW_MS {
      var i :| 0 <= i < |dueTimes| && dueTimes[i] == kickoff - ACTIVE_WINDOW_MS;
      assert plan[i].dueAt == kickoff - ACTIVE_WINDOW_MS;
    }
    assert DueOf(plan) == dueTimes;
    result := Ok(plan);
  }
}
