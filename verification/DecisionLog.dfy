/** The owner's decisions file, appended to by any number of review processes at once, each
    append being a read, a check and a replace under the private-file lock. */
module DecisionLog {
  import Lock = FileLock
  import LockRuns = FileLockRuns
  import opened Wrappers

  datatype Kind = Include | Exclude | Clear

  datatype Decision = Decision(video: nat, kind: Kind, decidedAt: int, reason: string)

  type File = map<nat, seq<Decision>>

  datatype Request = Request(creator: nat, decision: Decision)

  function EventsFor(file: File, creator: nat): seq<Decision> {
    if creator in file then file[creator] else []
  }

  /** The latest decision about a video by decision time, file order breaking ties. */
  function Latest(events: seq<Decision>, video: nat): Option<Decision> {
    if events == [] then None
    else
      var last, earlier := events[|events| - 1], Latest(events[..|events| - 1], video);
      if last.video == video && (earlier.None? || last.decidedAt >= earlier.value.decidedAt) then Some(last)
      else earlier
  }

  /** The event at `i` is later than every other one about the video. */
  ghost predicate LatestAt(events: seq<Decision>, video: nat, i: int) {
    && 0 <= i < |events|
    && events[i].video == video
    && forall j :: 0 <= j < |events| && events[j].video == video ==>
         events[j].decidedAt < events[i].decidedAt || (events[j].decidedAt == events[i].decidedAt && j <= i)
  }

  lemma {:induction false} LatestIsLatest(events: seq<Decision>, video: nat) returns (i: int)
    ensures Latest(events, video).None? ==> forall j :: 0 <= j < |events| ==> events[j].video != video
    ensures Latest(events, video).Some? ==> LatestAt(events, video, i) && events[i] == Latest(events, video).value
  {
    if events == [] {
      i := -1;
    } else {
      var n := |events| - 1;
      i := LatestIsLatest(events[..n], video);
      var earlier := Latest(events[..n], video);
      if events[n].video == video && (earlier.None? || events[n].decidedAt >= earlier.value.decidedAt) {
        i := n;
      }
    }
  }

  predicate HasActiveDecision(events: seq<Decision>, video: nat) {
    var latest := Latest(events, video);
    latest.Some? && !latest.value.kind.Clear?
  }

  /** A decision is active exactly if the latest about the video is no clear. */
  lemma ActiveExactly(events: seq<Decision>, video: nat)
    ensures HasActiveDecision(events, video) <==> exists i :: LatestAt(events, video, i) && !events[i].kind.Clear?
  {
    var i := LatestIsLatest(events, video);
    if Latest(events, video).Some? {
      forall j | LatestAt(events, video, j)
        ensures j == i
      {
      }
    }
    if j :| LatestAt(events, video, j) && !events[j].kind.Clear? {
      assert Latest(events, video).Some?;
    }
  }

  /** A decision that is no earlier than the others about its video decides whether there is an
      active one; it says nothing about other videos. */
  lemma NewDecisionDecides(events: seq<Decision>, d: Decision, video: nat)
    ensures video == d.video && (forall i :: 0 <= i < |events| && events[i].video == video ==>
        events[i].decidedAt <= d.decidedAt) ==>
      (HasActiveDecision(events + [d], video) <==> !d.kind.Clear?)
    ensures video != d.video ==> (HasActiveDecision(events + [d], video) <==> HasActiveDecision(events, video))
  {
    var all := events + [d];
    assert all[..|all| - 1] == events;
    if video == d.video && forall i :: 0 <= i < |events| && events[i].video == video ==>
        events[i].decidedAt <= d.decidedAt {
      assert LatestAt(all, video, |events|);
      ActiveExactly(all, video);
      assert forall i :: LatestAt(all, video, i) ==> i == |events|;
    }
  }

  /** A clear is refused exactly if no include or exclude of its video is the latest word on it. */
  lemma RefusedClears(file: File, request: Request)
    ensures NothingToClear(file, request) <==>
      && request.decision.kind == Clear
      && forall i :: LatestAt(EventsFor(file, request.creator), request.decision.video, i) ==>
           EventsFor(file, request.creator)[i].kind == Clear
  {
    ActiveExactly(EventsFor(file, request.creator), request.decision.video);
  }

  function Appended(file: File, request: Request): File {
    file[request.creator := EventsFor(file, request.creator) + [request.decision]]
  }

  predicate NothingToClear(file: File, request: Request) {
    request.decision.kind.Clear? && !HasActiveDecision(EventsFor(file, request.creator), request.decision.video)
  }

  /** How far the protected work of a call has come. */
  datatype Stage = Idle | Loaded(snapshot: File) | Replaced | Refused

  /** The file and, for every call, what it wants appended and how far it has come; `log` is
      history: the calls whose replace succeeded, in order. */
  datatype State = State(
    locks: Lock.State,
    file: File,
    requests: map<nat, Request>,
    stages: map<nat, Stage>,
    log: seq<nat>)

  datatype Action =
    | Begin(pid: nat, request: Request)
    | LockStep(step: Lock.Action)
    | Load(call: nat)
    | Replace(call: nat)
    | Fail(call: nat)

  const INIT := State(Lock.INIT, map[], map[], map[], [])

  predicate Working(s: State, c: nat) {
    Lock.At(s.locks, c, Lock.Work) && c in s.requests && c in s.stages
  }

  /** The work ends by returning or by throwing, not in between. */
  predicate Midway(s: State, step: Lock.Action) {
    step.Step? && Working(s, step.call) && (s.stages[step.call].Idle? || s.stages[step.call].Loaded?)
  }

  ghost function LocksAfter(s: State, a: Action): Lock.State {
    match a
    case Begin(pid, _) => Lock.Next(s.locks, Lock.Start(pid))
    case LockStep(step) => if step.Start? || Midway(s, step) then s.locks else Lock.Next(s.locks, step)
    case _ => s.locks
  }

  predicate Commits(s: State, a: Action) {
    a.Replace? && Working(s, a.call) && s.stages[a.call].Loaded?
    && !NothingToClear(s.stages[a.call].snapshot, s.requests[a.call])
  }

  function StagesAfter(s: State, a: Action): map<nat, Stage> {
    match a
    case Begin(pid, _) => if pid in s.locks.dead then s.stages else s.stages[s.locks.nextToken := Idle]
    case Load(c) => if Working(s, c) && s.stages[c].Idle? then s.stages[c := Loaded(s.file)] else s.stages
    case Replace(c) =>
      if Working(s, c) && s.stages[c].Loaded?
      then s.stages[c := if NothingToClear(s.stages[c].snapshot, s.requests[c]) then Refused else Replaced]
      else s.stages
    case Fail(c) => if Working(s, c) && !s.stages[c].Replaced? then s.stages[c := Refused] else s.stages
    case LockStep(_) => s.stages
  }

  function RequestsAfter(s: State, a: Action): map<nat, Request> {
    if a.Begin? && a.pid !in s.locks.dead then s.requests[s.locks.nextToken := a.request] else s.requests
  }

  /** Replacing the file is one rename; what it is replaced with was computed from the
      snapshot the call loaded. */
  ghost function Next(s: State, a: Action): State {
    State(
      LocksAfter(s, a),
      if Commits(s, a) then Appended(s.stages[a.call].snapshot, s.requests[a.call]) else s.file,
      RequestsAfter(s, a),
      StagesAfter(s, a),
      if Commits(s, a) then s.log + [a.call] else s.log)
  }

  ghost function Run(s: State, actions: seq<Action>): State {
    if actions == [] then s
    else Next(Run(s, actions[..|actions| - 1]), actions[|actions| - 1])
  }

  /** What the file would hold had the replaces been made one after the other. */
  function Replay(requests: map<nat, Request>, log: seq<nat>): File
    requires forall c :: c in log ==> c in requests
  {
    if log == [] then map[]
    else Appended(Replay(requests, log[..|log| - 1]), requests[log[|log| - 1]])
  }

  // ---------------------------------------------------------------- the invariant

  ghost predicate JobsOk(s: State) {
    && s.requests.Keys == s.stages.Keys == s.locks.calls.Keys
    && (forall c :: c in s.log <==> c in s.stages && s.stages[c].Replaced?)
    && (forall i, j :: 0 <= i < j < |s.log| ==> s.log[i] != s.log[j])
  }

  /** What a live call has loaded is what the file still holds. */
  predicate SnapshotOk(s: State, c: nat)
    requires c in s.stages
  {
    Lock.Live(s.locks, c) && s.stages[c].Loaded? ==> Working(s, c) && s.stages[c].snapshot == s.file
  }

  ghost predicate SnapshotsOk(s: State) {
    forall c {:trigger SnapshotOk(s, c)} :: c in s.stages ==> SnapshotOk(s, c)
  }

  /** Every clear was logged over a list with an active decision about that video. */
  ghost predicate ClearsOk(s: State)
    requires forall c :: c in s.log ==> c in s.requests
  {
    forall i :: 0 <= i < |s.log| ==> !NothingToClear(Replay(s.requests, s.log[..i]), s.requests[s.log[i]])
  }

  ghost predicate Inv(s: State) {
    Lock.Inv(s.locks) && JobsOk(s) && SnapshotsOk(s) && s.file == Replay(s.requests, s.log) && ClearsOk(s)
  }

  lemma {:induction false} ReplayStable(requests: map<nat, Request>, requests': map<nat, Request>, log: seq<nat>)
    requires forall c :: c in log ==> c in requests && c in requests' && requests[c] == requests'[c]
    ensures Replay(requests, log) == Replay(requests', log)
  {
    if log != [] {
      ReplayStable(requests, requests', log[..|log| - 1]);
    }
  }

  lemma LocksKept(s: State, a: Action)
    requires Lock.Inv(s.locks) && !Next(s, a).locks.history.harmful
    ensures Lock.Inv(Next(s, a).locks)
    ensures !s.locks.history.harmful
  {
    if a.Begin? {
      Lock.HarmStays(s.locks, Lock.Start(a.pid));
      Lock.NextKept(s.locks, Lock.Start(a.pid));
    }
    if a.LockStep? && !a.step.Start? && !Midway(s, a.step) {
      Lock.HarmStays(s.locks, a.step);
      Lock.NextKept(s.locks, a.step);
    }
  }

  /** A file operation of one call leaves alone what another call holds at `Work`. */
  lemma OnlyWorker(s: State, c: nat, d: nat)
    requires Lock.Inv(s.locks) && Working(s, c) && Working(s, d)
    ensures c == d
  {
    Lock.HoldersAgree(s.locks, c, d);
  }

  lemma JobsKept(s: State, a: Action)
    requires Lock.Inv(s.locks) && JobsOk(s)
    ensures JobsOk(Next(s, a))
  {
    assert s.locks.nextToken !in s.locks.calls;
  }

  lemma LockStepSnapshot(s: State, step: Lock.Action, c: nat)
    requires Lock.Inv(s.locks) && JobsOk(s) && c in s.stages && SnapshotOk(s, c)
    ensures SnapshotOk(Next(s, LockStep(step)), c)
  {
  }

  lemma OwnSnapshot(s: State, a: Action, c: nat)
    requires JobsOk(s) && c in s.stages && SnapshotOk(s, c)
    requires a == Load(c) || a == Replace(c) || a == Fail(c)
    ensures SnapshotOk(Next(s, a), c)
  {
  }

  lemma OtherSnapshot(s: State, a: Action, c: nat)
    requires Lock.Inv(s.locks) && JobsOk(s) && c in s.stages && SnapshotOk(s, c)
    requires (a.Load? || a.Replace? || a.Fail?) && a.call != c
    ensures SnapshotOk(Next(s, a), c)
  {
    if Commits(s, a) && Working(s, c) {
      OnlyWorker(s, c, a.call);
    }
  }

  lemma BeginSnapshot(s: State, pid: nat, request: Request, c: nat)
    requires Lock.Inv(s.locks) && JobsOk(s) && c in Next(s, Begin(pid, request)).stages
    requires c in s.stages ==> SnapshotOk(s, c)
    ensures SnapshotOk(Next(s, Begin(pid, request)), c)
  {
  }

  lemma SnapshotsKept(s: State, a: Action)
    requires Inv(s)
    ensures SnapshotsOk(Next(s, a))
  {
    var s' := Next(s, a);
    forall c | c in s'.stages
      ensures SnapshotOk(s', c)
    {
      if c in s.stages {
        assert SnapshotOk(s, c);
      }
      match a
      case Begin(pid, request) => BeginSnapshot(s, pid, request, c);
      case LockStep(step) => LockStepSnapshot(s, step, c);
      case _ =>
        if a.call == c {
          OwnSnapshot(s, a, c);
        } else {
          OtherSnapshot(s, a, c);
        }
    }
  }

  /** A replace appends to the file as it is now, although it was computed from a snapshot. */
  lemma ReplaceIsCurrent(s: State, c: nat)
    requires Inv(s) && Commits(s, Replace(c))
    ensures Next(s, Replace(c)).file == Appended(s.file, s.requests[c])
    ensures !NothingToClear(s.file, s.requests[c])
  {
    assert SnapshotOk(s, c);
  }

  lemma ReplayKept(s: State, a: Action)
    requires Inv(s) && JobsOk(Next(s, a))
    ensures Next(s, a).file == Replay(Next(s, a).requests, Next(s, a).log)
  {
    var s' := Next(s, a);
    RequestsStay(s, a);
    ReplayStable(s.requests, s'.requests, s.log);
    if Commits(s, a) {
      ReplaceIsCurrent(s, a.call);
      assert s'.log[..|s.log|] == s.log;
    }
  }

  /** Only a new call adds a request. */
  lemma RequestsStay(s: State, a: Action)
    requires Lock.Inv(s.locks) && JobsOk(s)
    ensures Extends(s.requests, Next(s, a).requests)
  {
    assert s.locks.nextToken !in s.locks.calls;
  }

  predicate Extends(requests: map<nat, Request>, requests': map<nat, Request>) {
    forall c :: c in requests ==> c in requests' && requests'[c] == requests[c]
  }

  lemma ClearKept(requests: map<nat, Request>, requests': map<nat, Request>, log: seq<nat>, i: nat)
    requires Extends(requests, requests') && i < |log| && forall c :: c in log ==> c in requests
    requires !NothingToClear(Replay(requests, log[..i]), requests[log[i]])
    ensures !NothingToClear(Replay(requests', log[..i]), requests'[log[i]])
  {
    ReplayStable(requests, requests', log[..i]);
  }

  /** A replace leaves the requests alone and was checked against the file as it is. */
  lemma NewClearOk(s: State, a: Action)
    requires Inv(s) && Commits(s, a)
    ensures Next(s, a).requests == s.requests && Next(s, a).log == s.log + [a.call]
    ensures !NothingToClear(Replay(s.requests, s.log), s.requests[a.call])
  {
    ReplaceIsCurrent(s, a.call);
  }

  lemma ClearsKept(s: State, a: Action)
    requires Inv(s) && JobsOk(Next(s, a))
    ensures ClearsOk(Next(s, a))
  {
    var s' := Next(s, a);
    if Commits(s, a) {
      NewClearOk(s, a);
      forall i | 0 <= i < |s'.log|
        ensures !NothingToClear(Replay(s'.requests, s'.log[..i]), s'.requests[s'.log[i]])
      {
        assert s'.log[..i] == if i < |s.log| then s.log[..i] else s.log;
      }
    } else {
      RequestsStay(s, a);
      forall i | 0 <= i < |s.log|
        ensures !NothingToClear(Replay(s'.requests, s.log[..i]), s'.requests[s.log[i]])
      {
        ClearKept(s.requests, s'.requests, s.log, i);
      }
    }
  }

  lemma NextKept(s: State, a: Action)
    requires Inv(s) && !Next(s, a).locks.history.harmful
    ensures Inv(Next(s, a))
  {
    LocksKept(s, a);
    JobsKept(s, a);
    SnapshotsKept(s, a);
    ReplayKept(s, a);
    ClearsKept(s, a);
  }

  /** The lock takes part in a run of its own. */
  lemma {:induction false} LockRun(actions: seq<Action>) returns (steps: seq<Lock.Action>)
    ensures Run(INIT, actions).locks == Lock.Run(Lock.INIT, steps)
  {
    if actions == [] {
      steps := [];
    } else {
      var a := actions[|actions| - 1];
      var s := Run(INIT, actions[..|actions| - 1]);
      steps := LockRun(actions[..|actions| - 1]);
      if a.Begin? {
        Lock.RunConcat(Lock.INIT, steps, [Lock.Start(a.pid)]);
        Lock.RunCons(s.locks, Lock.Start(a.pid), []);
        assert [Lock.Start(a.pid)] + [] == [Lock.Start(a.pid)];
        steps := steps + [Lock.Start(a.pid)];
      } else if a.LockStep? && !a.step.Start? && !Midway(s, a.step) {
        Lock.RunConcat(Lock.INIT, steps, [a.step]);
        Lock.RunCons(s.locks, a.step, []);
        assert [a.step] + [] == [a.step];
        steps := steps + [a.step];
      }
    }
  }

  /** While no takeover of the lock is harmful, the file is at every moment what the
      successful replaces make of it one after the other, and no clear is ever logged over a
      list without an active decision about its video. */
  lemma {:induction false} Reachable(actions: seq<Action>)
    requires !Run(INIT, actions).locks.history.harmful
    ensures Inv(Run(INIT, actions))
  {
    if actions != [] {
      var before, a := actions[..|actions| - 1], actions[|actions| - 1];
      LocksHarmStays(Run(INIT, before), a);
      Reachable(before);
      NextKept(Run(INIT, before), a);
    }
  }

  lemma LocksHarmStays(s: State, a: Action)
    ensures s.locks.history.harmful ==> Next(s, a).locks.history.harmful
  {
    if a.Begin? {
      Lock.HarmStays(s.locks, Lock.Start(a.pid));
    } else if a.LockStep? {
      Lock.HarmStays(s.locks, a.step);
    }
  }

  lemma CarefulReachable(actions: seq<Action>)
    requires Lock.Careful(Run(INIT, actions).locks)
    ensures Inv(Run(INIT, actions))
  {
    var steps := LockRun(actions);
    Lock.CarefulIsHarmless(steps);
    Reachable(actions);
  }

  // ---------------------------------------------------------------- no decision is lost

  /** The decisions about one creator, in the order they were acknowledged. */
  function DecisionsOf(requests: map<nat, Request>, log: seq<nat>, creator: nat): seq<Decision>
    requires forall c :: c in log ==> c in requests
  {
    if log == [] then []
    else
      var last := requests[log[|log| - 1]];
      DecisionsOf(requests, log[..|log| - 1], creator) + if last.creator == creator then [last.decision] else []
  }

  lemma {:induction false} ReplayHolds(requests: map<nat, Request>, log: seq<nat>, creator: nat)
    requires forall c :: c in log ==> c in requests
    ensures EventsFor(Replay(requests, log), creator) == DecisionsOf(requests, log, creator)
  {
    if log != [] {
      ReplayHolds(requests, log[..|log| - 1], creator);
    }
  }

  /** Every creator's list is exactly its acknowledged decisions, each once, in log order. */
  lemma FileIsTheLog(actions: seq<Action>, creator: nat)
    requires !Run(INIT, actions).locks.history.harmful
    ensures var s := Run(INIT, actions);
      && (forall c :: c in s.log <==> c in s.stages && s.stages[c].Replaced?)
      && (forall i, j :: 0 <= i < j < |s.log| ==> s.log[i] != s.log[j])
      && (forall c :: c in s.log ==> c in s.requests)
      && EventsFor(s.file, creator) == DecisionsOf(s.requests, s.log, creator)
  {
    var s := Run(INIT, actions);
    Reachable(actions);
    ReplayHolds(s.requests, s.log, creator);
  }

  lemma {:induction false} RunConcat(s: State, first: seq<Action>, more: seq<Action>)
    ensures Run(s, first + more) == Run(Run(s, first), more)
  {
    if more == [] {
      assert first + more == first;
    } else {
      var all := first + more;
      assert all[..|all| - 1] == first + more[..|more| - 1];
      RunConcat(s, first, more[..|more| - 1]);
    }
  }

  lemma {:induction false} GrowsFrom(s: State, more: seq<Action>, creator: nat)
    requires Inv(s) && !Run(s, more).locks.history.harmful
    ensures Inv(Run(s, more))
    ensures EventsFor(s.file, creator) <= EventsFor(Run(s, more).file, creator)
  {
    if more != [] {
      var before, a := Run(s, more[..|more| - 1]), more[|more| - 1];
      LocksHarmStays(before, a);
      GrowsFrom(s, more[..|more| - 1], creator);
      StepGrows(before, a, creator);
      NextKept(before, a);
    }
  }

  lemma HistoriesOnlyGrow(actions: seq<Action>, more: seq<Action>, creator: nat)
    requires !Run(INIT, actions + more).locks.history.harmful
    ensures EventsFor(Run(INIT, actions).file, creator) <= EventsFor(Run(INIT, actions + more).file, creator)
  {
    RunConcat(INIT, actions, more);
    HarmComesFromMore(Run(INIT, actions), more);
    Reachable(actions);
    GrowsFrom(Run(INIT, actions), more, creator);
  }

  lemma StepGrows(s: State, a: Action, creator: nat)
    requires Inv(s)
    ensures EventsFor(s.file, creator) <= EventsFor(Next(s, a).file, creator)
  {
    if Commits(s, a) {
      ReplaceIsCurrent(s, a.call);
    }
  }

  lemma {:induction false} LoggedIsThere(requests: map<nat, Request>, log: seq<nat>, c: nat)
    requires forall d :: d in log ==> d in requests
    requires c in log
    ensures requests[c].decision in DecisionsOf(requests, log, requests[c].creator)
  {
    if c != log[|log| - 1] {
      assert log == log[..|log| - 1] + [log[|log| - 1]];
      LoggedIsThere(requests, log[..|log| - 1], c);
    }
  }

  /** A decision whose replace succeeded is in every later file. */
  lemma AcknowledgedIsKept(actions: seq<Action>, more: seq<Action>, c: nat)
    requires !Run(INIT, actions + more).locks.history.harmful
    requires c in Run(INIT, actions).requests && c in Run(INIT, actions).stages
        && Run(INIT, actions).stages[c].Replaced?
    ensures var request := Run(INIT, actions).requests[c];
      request.decision in EventsFor(Run(INIT, actions + more).file, request.creator)
  {
    var s := Run(INIT, actions);
    RunConcat(INIT, actions, more);
    HarmComesFromMore(s, more);
    Reachable(actions);
    FileIsTheLog(actions, s.requests[c].creator);
    LoggedIsThere(s.requests, s.log, c);
    HistoriesOnlyGrow(actions, more, s.requests[c].creator);
  }

  lemma {:induction false} HarmComesFromMore(s: State, more: seq<Action>)
    requires !Run(s, more).locks.history.harmful
    ensures !s.locks.history.harmful
  {
    if more != [] {
      LocksHarmStays(Run(s, more[..|more| - 1]), more[|more| - 1]);
      HarmComesFromMore(s, more[..|more| - 1]);
    }
  }

  lemma LoadEffect(s: State, c: nat)
    requires Working(s, c) && s.stages[c].Idle?
    ensures Next(s, Load(c)) == s.(stages := s.stages[c := Loaded(s.file)])
  {
  }

  lemma ReplaceEffect(s: State, c: nat)
    requires Commits(s, Replace(c))
    ensures Next(s, Replace(c)) ==
      State(s.locks, Appended(s.stages[c].snapshot, s.requests[c]),
            s.requests, s.stages[c := Replaced], s.log + [c])
  {
  }

  /** A call that is inside the work can finish it: its decision is acknowledged at the end of its
      creator's list, or refused because there is nothing to clear. */
  lemma WorkCanFinish(s: State, c: nat)
    requires Working(s, c) && s.stages[c].Idle?
    ensures var request, t := s.requests[c], Run(s, [Load(c), Replace(c)]);
      && c in t.stages && t.locks == s.locks
      && (NothingToClear(s.file, request) ==> t.stages[c].Refused? && t.file == s.file && t.log == s.log)
      && (!NothingToClear(s.file, request) ==> t.stages[c].Replaced? && t.log == s.log + [c])
      && (!NothingToClear(s.file, request) ==>
            forall creator :: EventsFor(t.file, creator) ==
              EventsFor(s.file, creator) + if creator == request.creator then [request.decision] else [])
  {
    LoadEffect(s, c);
    var s1 := Next(s, Load(c));
    assert [Load(c), Replace(c)][..1] == [Load(c)];
    RunOne(s, Load(c));
    assert Run(s, [Load(c), Replace(c)]) == Next(s1, Replace(c));
    if !NothingToClear(s.file, s.requests[c]) {
      ReplaceEffect(s1, c);
    }
  }

  /** Once two calls are inside the work together an acknowledged decision can be lost, so
      the lock's exclusion is not only enough but needed. */
  lemma TwoWorkersLoseADecision(s: State, c: nat, d: nat) returns (actions: seq<Action>)
    requires c != d && Working(s, c) && Working(s, d) && s.stages[c].Idle? && s.stages[d].Idle?
    requires s.requests[c].creator == s.requests[d].creator
    requires !NothingToClear(s.file, s.requests[c]) && !NothingToClear(s.file, s.requests[d])
    requires s.requests[c].decision != s.requests[d].decision
    requires s.requests[c].decision !in EventsFor(s.file, s.requests[c].creator)
    ensures var s' := Run(s, actions);
      && c in s'.log && s'.requests == s.requests && s'.locks == s.locks
      && s.requests[c].decision !in EventsFor(s'.file, s.requests[c].creator)
  {
    LoadEffect(s, c);
    var s1 := Next(s, Load(c));
    LoadEffect(s1, d);
    var s2 := Next(s1, Load(d));
    ReplaceEffect(s2, c);
    var s3 := Next(s2, Replace(c));
    ReplaceEffect(s3, d);
    actions := [Load(c), Load(d), Replace(c), Replace(d)];
    assert actions[..3] == [Load(c), Load(d), Replace(c)];
    assert actions[..3][..2] == [Load(c), Load(d)];
    assert actions[..3][..2][..1] == [Load(c)];
    assert Run(s, actions[..3][..2][..1]) == s1;
    assert Run(s, actions[..3][..2]) == s2;
    assert Run(s, actions[..3]) == s3;
  }

  // ---------------------------------------------------------------- every run of the lock is one of the log

  /** Nothing was written yet, every call wants what `wanted` says, and those that have not left
      the work have not begun it. */
  ghost predicate Untouched(s: State, wanted: nat -> Request) {
    && s.requests.Keys == s.stages.Keys == s.locks.calls.Keys
    && s.file == map[] && s.log == []
    && (forall c :: c in s.requests ==> s.requests[c] == wanted(c))
    && (forall c :: c in s.stages ==> s.stages[c].Idle? || Left(s.locks.calls[c].pc))
  }

  predicate Left(pc: Lock.Pc) {
    pc.Release? || pc.Remove? || pc.Exited?
  }

  /** What the log does while the lock takes one step: a start is a beginning, and work that
      has not begun fails before the lock is released. */
  function Lifted(s: State, step: Lock.Action, wanted: nat -> Request): seq<Action> {
    if step.Start? then [Begin(step.pid, wanted(s.locks.nextToken))]
    else if Midway(s, step) then [Fail(step.call), LockStep(step)]
    else [LockStep(step)]
  }

  lemma RunOne(s: State, a: Action)
    ensures Run(s, [a]) == Next(s, a)
  {
    assert [a][..0] == [];
  }

  lemma RunTwo(s: State, a: Action, b: Action)
    ensures Run(s, [a, b]) == Next(Next(s, a), b)
  {
    assert [a, b][..1] == [a];
    RunOne(s, a);
  }

  lemma LeftStays(s: Lock.State, step: Lock.Action)
    requires !step.Start?
    ensures Lock.Next(s, step).calls.Keys == s.calls.Keys
    ensures forall c :: c in s.calls && Left(s.calls[c].pc) ==> Left(Lock.Next(s, step).calls[c].pc)
  {
  }

  lemma PlainStepLifted(s: State, step: Lock.Action, wanted: nat -> Request)
    requires Untouched(s, wanted) && !step.Start? && !Midway(s, step)
    ensures Next(s, LockStep(step)).locks == Lock.Next(s.locks, step)
    ensures Untouched(Next(s, LockStep(step)), wanted)
  {
    LeftStays(s.locks, step);
  }

  lemma StartLifted(s: State, pid: nat, wanted: nat -> Request)
    requires Untouched(s, wanted)
    ensures var s' := Next(s, Begin(pid, wanted(s.locks.nextToken)));
      s'.locks == Lock.Next(s.locks, Lock.Start(pid)) && Untouched(s', wanted)
  {
  }

  lemma UnbegunFails(s: State, c: nat, wanted: nat -> Request)
    requires Untouched(s, wanted) && Working(s, c)
    ensures Next(s, Fail(c)) == s.(stages := s.stages[c := Refused])
  {
  }

  lemma FailedStepLifted(s: State, c: nat, wanted: nat -> Request)
    requires Untouched(s, wanted) && Midway(s, Lock.Step(c))
    ensures var s' := Next(Next(s, Fail(c)), LockStep(Lock.Step(c)));
      s'.locks == Lock.Next(s.locks, Lock.Step(c)) && Untouched(s', wanted)
  {
    UnbegunFails(s, c, wanted);
    assert Lock.Next(s.locks, Lock.Step(c)).calls == s.locks.calls[c := Lock.Call(s.locks.calls[c].pid, Lock.Release)];
  }

  lemma StepLifted(s: State, step: Lock.Action, wanted: nat -> Request)
    requires Untouched(s, wanted)
    ensures var s' := Run(s, Lifted(s, step, wanted));
      s'.locks == Lock.Next(s.locks, step) && Untouched(s', wanted)
  {
    if step.Start? {
      RunOne(s, Begin(step.pid, wanted(s.locks.nextToken)));
      StartLifted(s, step.pid, wanted);
    } else if Midway(s, step) {
      RunTwo(s, Fail(step.call), LockStep(step));
      FailedStepLifted(s, step.call, wanted);
    } else {
      RunOne(s, LockStep(step));
      PlainStepLifted(s, step, wanted);
    }
  }

  lemma {:induction false} LockRunLifted(steps: seq<Lock.Action>, wanted: nat -> Request) returns (actions: seq<Action>)
    ensures Run(INIT, actions).locks == Lock.Run(Lock.INIT, steps)
    ensures Untouched(Run(INIT, actions), wanted)
  {
    if steps == [] {
      actions := [];
    } else {
      var before := LockRunLifted(steps[..|steps| - 1], wanted);
      var s, step := Run(INIT, before), steps[|steps| - 1];
      actions := before + Lifted(s, step, wanted);
      RunConcat(INIT, before, Lifted(s, step, wanted));
      StepLifted(s, step, wanted);
    }
  }

  /** An acknowledged decision is not in the file. */
  ghost predicate Lost(s: State) {
    exists c :: c in s.log && c in s.requests && s.requests[c].decision !in EventsFor(s.file, s.requests[c].creator)
  }

  lemma LossIsHarmful(actions: seq<Action>)
    requires Lost(Run(INIT, actions))
    ensures Run(INIT, actions).locks.history.harmful
  {
    var s := Run(INIT, actions);
    if !s.locks.history.harmful {
      var c :| c in s.log && c in s.requests && s.requests[c].decision !in EventsFor(s.file, s.requests[c].creator);
      FileIsTheLog(actions, s.requests[c].creator);
      LoggedIsThere(s.requests, s.log, c);
    }
  }

  function Inclusion(c: nat): Request {
    Request(0, Decision(c, Include, 0, ""))
  }

  /** Whatever run of the lock lets two processes into the work together is the lock's part of
      a run in which an acknowledged decision is lost. */
  lemma MeetingLosesADecision(steps: seq<Lock.Action>) returns (actions: seq<Action>)
    requires Lock.Violated(Lock.Run(Lock.INIT, steps))
    ensures Run(INIT, actions).locks == Lock.Run(Lock.INIT, steps)
    ensures Lost(Run(INIT, actions))
  {
    var before := LockRunLifted(steps, Inclusion);
    var s := Run(INIT, before);
    var c, d :| Lock.At(s.locks, c, Lock.Work) && Lock.At(s.locks, d, Lock.Work)
      && s.locks.calls[c].pid != s.locks.calls[d].pid;
    assert s.requests[c].decision.video == c && s.requests[d].decision.video == d;
    var more := TwoWorkersLoseADecision(s, c, d);
    RunConcat(INIT, before, more);
    actions := before + more;
  }

  /** So from the empty file a decision can be lost although no process dies with its lock in
      place and every takeover is of the record its claim is named for. */
  lemma DecisionCanBeLost() returns (actions: seq<Action>)
    ensures var s := Run(INIT, actions);
      Lost(s) && s.locks.history.orphaned == {} && !s.locks.history.mismatch
  {
    var steps := LockRuns.ProbeAfterReleaseBreaks();
    actions := MeetingLosesADecision(steps);
  }

  /** From this point of a run of the lock it can go on, without further harm, so that the log
      loses a decision. */
  ghost predicate CanLose(steps: seq<Lock.Action>) {
    exists rest, actions ::
      && Lock.Harmless(Lock.Run(Lock.INIT, steps), rest)
      && Run(INIT, actions).locks == Lock.Run(Lock.INIT, steps + rest)
      && Lost(Run(INIT, actions))
  }

  lemma LosingIsHarmful(steps: seq<Lock.Action>)
    requires CanLose(steps)
    ensures Lock.Run(Lock.INIT, steps).history.harmful
  {
    var rest, actions :|
      && Lock.Harmless(Lock.Run(Lock.INIT, steps), rest)
      && Run(INIT, actions).locks == Lock.Run(Lock.INIT, steps + rest)
      && Lost(Run(INIT, actions));
    LossIsHarmful(actions);
    Lock.RunConcat(Lock.INIT, steps, rest);
    Lock.HarmlessMeans(Lock.Run(Lock.INIT, steps), rest);
  }

  lemma MeetingCanLose(steps: seq<Lock.Action>)
    requires Lock.CanMeet(Lock.Run(Lock.INIT, steps))
    ensures CanLose(steps)
  {
    var s := Lock.Run(Lock.INIT, steps);
    var rest :| Lock.Harmless(s, rest) && Lock.Violated(Lock.Run(s, rest));
    Lock.RunConcat(Lock.INIT, steps, rest);
    var actions := MeetingLosesADecision(steps + rest);
  }

  /** A run of the lock judged harmfully exactly if from some point of it on, without further
      harm, a decision can be lost. */
  lemma LosesExactlyWhenHarmful(steps: seq<Lock.Action>)
    ensures Lock.Run(Lock.INIT, steps).history.harmful <==> exists n :: 0 <= n <= |steps| && CanLose(steps[..n])
  {
    if Lock.Run(Lock.INIT, steps).history.harmful {
      var n := Lock.HarmLeadsToMeeting(steps);
      MeetingCanLose(steps[..n]);
    }
    if n :| 0 <= n <= |steps| && CanLose(steps[..n]) {
      LosingIsHarmful(steps[..n]);
      Lock.HarmLasts(steps, n);
    }
  }

  /** The protected work as one process runs it. */
  class DecisionsFile {
    var file: File

    constructor ()
      ensures file == map[]
    {
      file := map[];
    }

    /** Refuses a clear with nothing to clear; otherwise one list grows by one at its end. */
    method Apply(request: Request) returns (accepted: bool)
      modifies this
      ensures accepted <==> !NothingToClear(old(file), request)
      ensures !accepted ==> file == old(file)
      ensures accepted ==>
        EventsFor(file, request.creator) == EventsFor(old(file), request.creator) + [request.decision]
      ensures forall creator :: creator != request.creator ==> EventsFor(file, creator) == EventsFor(old(file), creator)
    {
      var events := EventsFor(file, request.creator);
      if request.decision.kind.Clear? && !HasActiveDecision(events, request.decision.video) {
        return false;
      }
      file := file[request.creator := events + [request.decision]];
      accepted := true;
    }
  }
}
