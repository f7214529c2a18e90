/** The private-file lock with stale takeover, as a state machine over single file steps. */
module FileLock {
  // Any number of processes run any number of calls of `withPrivateFileLock`.  Every step
  // below is one file operation or one liveness probe; steps of different calls interleave
  // freely and a process may die between any two of them.  A record is read in one step and
  // its owner is probed in a later one, as the source does, so the owner may release its
  // record and exit in between.

  import opened Wrappers

  /** An ownership record: the lock file and every claim file hold one. */
  datatype Owner = Owner(pid: nat, token: nat)

  /** Where one call of `withPrivateFileLock` stands. */
  datatype Pc =
    | Acquire                                                // link the lock record
    | FirstRead                                              // read the lock to judge it
    | FirstProbe(seen: Owner)                                // probe the owner just read
    | ReapRead                                               // read the lock again to name the claim
    | ClaimLink(key: nat)                                    // link the claim record
    | ClaimRead(key: nat)                                    // the claim is taken: read it
    | ClaimProbe(claimant: Owner)                            // ... and probe its owner
    | SecondRead(key: nat, claim: nat)                       // holding the claim: read the lock
    | SecondProbe(key: nat, claim: nat, seen: Owner)         // ... and probe its owner
    | Rename(key: nat, claim: nat, judged: Owner)            // move the lock aside, whatever it holds now
    | ClaimRelease(key: nat, claim: nat)                     // read the claim before removing it
    | ClaimRemove(key: nat, claim: nat)                      // remove the claim
    | Poll                                                   // try again, or give up at the deadline
    | Work                                                   // inside the protected work
    | Release                                                // read the lock before removing it
    | Remove                                                 // remove the lock
    | Exited

  /** A call is named by the random token it puts in its lock record. */
  datatype Call = Call(pid: nat, pc: Pc)

  /** What happened so far; no step reads it.  `drawn` says which call put each claim token in place
      and `renamer` which call last judged a lock gone under a claim; `orphaned` holds the
      token of every lock record whose process died while the record was in place; the flags
      say that some probe found gone a process that had not left its record behind
      (`lateFirst`, `lateSecond`), that the record judged under a claim was not the one the
      claim is named for (`mismatch`), and that some call went on to rename when that was not
      `RenameSafe` (`harmful`). */
  datatype History = History(
    drawn: map<nat, nat>,
    renamer: Option<nat>,
    orphaned: set<nat>,
    lateFirst: bool,
    lateSecond: bool,
    mismatch: bool,
    harmful: bool)

  /** The lock file, the claim files, the calls, the dead processes and a supply of tokens. */
  datatype State = State(
    lock: Option<Owner>,
    claims: map<nat, Owner>,
    calls: map<nat, Call>,
    dead: set<nat>,
    nextToken: nat,
    history: History)

  datatype Action =
    | Start(pid: nat)
    | Step(call: nat)
    | GiveUp(call: nat)
    | Die(pid: nat)

  const INIT := State(None, map[], map[], {}, 0, History(map[], None, {}, false, false, false, false))

  predicate Live(s: State, c: nat) {
    c in s.calls && s.calls[c].pid !in s.dead
  }

  predicate At(s: State, c: nat, pc: Pc) {
    Live(s, c) && s.calls[c].pc == pc
  }

  predicate Holding(pc: Pc) {
    pc.Work? || pc.Release? || pc.Remove?
  }

  predicate Claiming(pc: Pc) {
    pc.SecondRead? || pc.SecondProbe? || pc.Rename? || pc.ClaimRelease? || pc.ClaimRemove?
  }

  predicate Renaming(s: State, c: nat) {
    Live(s, c) && s.calls[c].pc.Rename?
  }

  /** The lock in place is the record of a dead process, and the claim that could take it
      over is the one named `key` or out of everybody's reach, its claimant having died. */
  predicate Doomed(s: State, key: nat) {
    && s.lock.Some?
    && s.lock.value.pid in s.dead
    && (|| key == s.lock.value.token
        || (s.lock.value.token in s.claims && s.claims[s.lock.value.token].pid in s.dead))
  }

  /** Renaming the lock under the claim named `key` can remove nothing but the record of a
      dead process, now or whenever the rename happens. */
  ghost predicate RenameSafe(s: State, c: nat, key: nat) {
    && Doomed(s, key)
    && (key == s.lock.value.token || forall d :: Renaming(s, d) ==> d == c)
  }

  /** Before the work and outside any claim. */
  predicate Outside(pc: Pc) {
    !Holding(pc) && !Claiming(pc) && !pc.Exited?
  }

  /** Where a step of call `c` leads. */
  function PcAfter(s: State, c: nat): Pc
    requires c in s.calls
  {
    match s.calls[c].pc
    case Acquire => if s.lock.None? then Work else FirstRead
    case FirstRead => if s.lock.None? then Poll else FirstProbe(s.lock.value)
    case FirstProbe(seen) => if seen.pid in s.dead then ReapRead else Poll
    case ReapRead => if s.lock.None? then Poll else ClaimLink(s.lock.value.token)
    case ClaimLink(key) => if key in s.claims then ClaimRead(key) else SecondRead(key, s.nextToken)
    case ClaimRead(key) => if key in s.claims then ClaimProbe(s.claims[key]) else Poll
    case ClaimProbe(claimant) => if claimant.pid in s.dead then Exited else Poll
    case SecondRead(key, claim) =>
      if s.lock.None? then ClaimRelease(key, claim) else SecondProbe(key, claim, s.lock.value)
    case SecondProbe(key, claim, seen) =>
      if seen.pid in s.dead then Rename(key, claim, seen) else ClaimRelease(key, claim)
    case Rename(key, claim, _) => ClaimRelease(key, claim)
    case ClaimRelease(key, claim) =>
      if key in s.claims && s.claims[key].token == claim then ClaimRemove(key, claim) else Poll
    case ClaimRemove(_, _) => Poll
    case Poll => Acquire
    case Work => Release
    case Release => if s.lock.Some? && s.lock.value.token == c then Remove else Exited
    case Remove => Exited
    case Exited => Exited
  }

  /** What the step does to the lock file: link it if absent, or take away whatever is there. */
  function LockAfter(s: State, c: nat): Option<Owner>
    requires c in s.calls
  {
    match s.calls[c].pc
    case Acquire => if s.lock.None? then Some(Owner(s.calls[c].pid, c)) else s.lock
    case Rename(_, _, _) => None
    case Remove => None
    case _ => s.lock
  }

  /** ... and to the claim files. */
  function ClaimsAfter(s: State, c: nat): map<nat, Owner>
    requires c in s.calls
  {
    match s.calls[c].pc
    case ClaimLink(key) =>
      if key in s.claims then s.claims else s.claims[key := Owner(s.calls[c].pid, s.nextToken)]
    case ClaimRemove(key, _) => s.claims - {key}
    case _ => s.claims
  }

  ghost function HistoryAfter(s: State, c: nat): History
    requires c in s.calls
  {
    match s.calls[c].pc
    case FirstProbe(seen) =>
      if seen.pid in s.dead
      then s.history.(lateFirst := s.history.lateFirst || seen.token !in s.history.orphaned)
      else s.history
    case ClaimLink(key) =>
      if key in s.claims then s.history else s.history.(drawn := s.history.drawn[s.nextToken := c])
    case SecondProbe(key, _, seen) =>
      if seen.pid in s.dead
      then s.history.(
             renamer := Some(c),
             lateSecond := s.history.lateSecond || seen.token !in s.history.orphaned,
             mismatch := s.history.mismatch || seen.token != key,
             harmful := s.history.harmful || !RenameSafe(s, c, key))
      else s.history
    case _ => s.history
  }

  /** Moving a call to another position. */
  function Moved(s: State, c: nat, pc: Pc): map<nat, Call>
    requires c in s.calls
  {
    s.calls[c := Call(s.calls[c].pid, pc)]
  }

  /** One action.  An action that is not possible changes nothing. */
  ghost function Next(s: State, a: Action): State {
    match a
    case Start(pid) =>
      if pid in s.dead then s
      else s.(calls := s.calls[s.nextToken := Call(pid, Acquire)], nextToken := s.nextToken + 1)
    case Step(c) =>
      if Live(s, c) && !s.calls[c].pc.Exited? then
        State(LockAfter(s, c), ClaimsAfter(s, c), Moved(s, c, PcAfter(s, c)), s.dead, s.nextToken + 1,
            HistoryAfter(s, c))
      else s
    case GiveUp(c) =>
      if At(s, c, Poll) then s.(calls := Moved(s, c, Exited)) else s
    case Die(pid) =>
      var left := if s.lock.Some? && s.lock.value.pid == pid then {s.lock.value.token} else {};
      s.(dead := s.dead + {pid}, history := s.history.(orphaned := s.history.orphaned + left))
  }

  ghost function Run(s: State, actions: seq<Action>): State {
    if actions == [] then s
    else Next(Run(s, actions[..|actions| - 1]), actions[|actions| - 1])
  }

  // ---------------------------------------------------------------- the invariant

  /** The record of a call that took the lock at some time. */
  predicate Placed(s: State, r: Owner) {
    && r.token in s.calls
    && s.calls[r.token].pid == r.pid
    && (Holding(s.calls[r.token].pc) || s.calls[r.token].pc.Exited?)
  }

  predicate InPlaceOk(s: State, r: Owner) {
    && Placed(s, r)
    && Holding(s.calls[r.token].pc)
    && (r.pid in s.dead ==> r.token in s.history.orphaned)
  }

  predicate HoldsClaim(s: State, c: nat, key: nat) {
    Live(s, c) && Claiming(s.calls[c].pc) && s.calls[c].pc.key == key
  }

  predicate ClaimOk(s: State, key: nat)
    requires key in s.claims
  {
    && s.claims[key].token in s.history.drawn
    && (s.claims[key].pid !in s.dead ==> HoldsClaim(s, s.history.drawn[s.claims[key].token], key))
  }

  predicate OrphanOk(s: State, t: nat) {
    t in s.calls && s.calls[t].pid in s.dead && Holding(s.calls[t].pc)
  }

  predicate CallOk(s: State, c: nat)
    requires c in s.calls
  {
    var me, pc := s.calls[c].pid, s.calls[c].pc;
    && (Claiming(pc) ==> pc.claim in s.history.drawn && s.history.drawn[pc.claim] == c)
    && (me !in s.dead ==>
          && (Holding(pc) ==> s.lock == Some(Owner(me, c)))
          && (Claiming(pc) ==> pc.key in s.claims && s.claims[pc.key] == Owner(me, pc.claim))
          && (pc.Rename? ==> s.history.renamer == Some(c) && Doomed(s, pc.key))
          && (pc.FirstProbe? ==> Placed(s, pc.seen))
          && (pc.SecondProbe? ==> SeenOk(s, pc.key, pc.seen)))
  }

  /** What a claimant read stays there unless its owner released it, as long as the claim is
      the one named for it and the owner left the record behind. */
  predicate SeenOk(s: State, key: nat, seen: Owner) {
    && Placed(s, seen)
    && (seen.token == key && seen.token in s.history.orphaned ==> s.lock == Some(seen))
  }

  ghost predicate Inv(s: State) {
    && (s.lock.Some? ==> InPlaceOk(s, s.lock.value))
    && (forall t :: t in s.history.drawn ==> t < s.nextToken)
    && (forall c :: c in s.calls ==> c < s.nextToken)
    && (forall key {:trigger ClaimOk(s, key)} :: key in s.claims ==> ClaimOk(s, key))
    && (forall t {:trigger OrphanOk(s, t)} :: t in s.history.orphaned ==> OrphanOk(s, t))
    && (forall c {:trigger CallOk(s, c)} :: c in s.calls ==> CallOk(s, c))
  }

  // ---------------------------------------------------------------- every step keeps it

  /** The parts of the state that a call's invariant speaks of are the same, but for the
      program counter of `c`, which is a fresh call or moves between positions outside the
      protected work and outside any claim. */
  ghost predicate OnlyMoves(s: State, s': State, c: nat, pc: Pc) {
    && s'.lock == s.lock && s'.claims == s.claims && s'.dead == s.dead && s'.history.drawn == s.history.drawn
    && s'.history.renamer == s.history.renamer && s'.history.orphaned == s.history.orphaned
        && s'.nextToken >= s.nextToken
    && c < s'.nextToken
    && s'.calls.Keys == s.calls.Keys + {c}
    && s'.calls[c].pc == pc
    && (c in s.calls ==> s'.calls[c].pid == s.calls[c].pid && Outside(s.calls[c].pc))
    && (forall d :: d in s.calls && d != c ==> s'.calls[d] == s.calls[d])
  }

  lemma OutsideKept(s: State, s': State, c: nat, pc: Pc)
    requires Inv(s) && OnlyMoves(s, s', c, pc)
    requires Outside(pc) || (pc.Exited? && c in s.calls)
    requires pc.FirstProbe? ==> Placed(s, pc.seen)
    requires c !in s.calls ==> c >= s.nextToken
    ensures Inv(s')
  {
    forall d | d in s'.calls
      ensures CallOk(s', d)
    {
      if d in s.calls {
        assert CallOk(s, d);
      }
    }
    forall key | key in s'.claims
      ensures ClaimOk(s', key)
    {
      assert ClaimOk(s, key);
    }
    forall t | t in s'.history.orphaned
      ensures OrphanOk(s', t)
    {
      assert OrphanOk(s, t);
    }
  }

  lemma StartKept(s: State, pid: nat)
    requires Inv(s)
    ensures Inv(Next(s, Start(pid)))
  {
    if pid !in s.dead {
      OutsideKept(s, Next(s, Start(pid)), s.nextToken, Acquire);
    }
  }

  lemma DieKept(s: State, pid: nat)
    requires Inv(s)
    ensures Inv(Next(s, Die(pid)))
  {
    var s' := Next(s, Die(pid));
    forall d | d in s'.calls
      ensures CallOk(s', d)
    {
      assert CallOk(s, d);
    }
    forall key | key in s'.claims
      ensures ClaimOk(s', key)
    {
      if key in s.claims {
        assert ClaimOk(s, key);
        if s.claims[key].pid !in s.dead {
          assert CallOk(s, s.history.drawn[s.claims[key].token]);
        }
      }
    }
    forall t | t in s'.history.orphaned
      ensures OrphanOk(s', t)
    {
      if t in s.history.orphaned {
        assert OrphanOk(s, t);
      }
    }
  }

  /** Two live calls never hold the claim for one record. */
  lemma ClaimExclusive(s: State, c: nat, d: nat, key: nat)
    requires Inv(s) && HoldsClaim(s, c, key) && HoldsClaim(s, d, key)
    ensures c == d
  {
    assert CallOk(s, c);
    assert CallOk(s, d);
  }

  lemma OnlyRenamer(s: State, c: nat, d: nat)
    requires Inv(s) && Live(s, c) && s.calls[c].pc.SecondProbe? && Renaming(s, d)
    requires RenameSafe(s, c, s.calls[c].pc.key)
    ensures c == d
  {
    assert CallOk(s, c);
    assert CallOk(s, d);
    if s.calls[d].pc.key == s.calls[c].pc.key {
      ClaimExclusive(s, c, d, s.calls[c].pc.key);
    }
  }

  lemma ClaimRecordsKept(s: State, c: nat)
    requires Inv(s) && Live(s, c)
    ensures var s' := Next(s, Step(c));
      forall key {:trigger ClaimOk(s', key)} :: key in s'.claims ==> ClaimOk(s', key)
  {
    var s' := Next(s, Step(c));
    assert CallOk(s, c);
    forall key | key in s'.claims
      ensures ClaimOk(s', key)
    {
      if key in s.claims {
        assert ClaimOk(s, key);
      }
    }
  }

  lemma LockRecordKept(s: State, c: nat)
    requires Inv(s) && Live(s, c)
    ensures var s' := Next(s, Step(c));
      && (s'.lock.Some? ==> InPlaceOk(s', s'.lock.value))
      && (forall t {:trigger OrphanOk(s', t)} :: t in s'.history.orphaned ==> OrphanOk(s', t))
  {
    var s' := Next(s, Step(c));
    assert CallOk(s, c);
    forall t | t in s'.history.orphaned
      ensures OrphanOk(s', t)
    {
      assert OrphanOk(s, t);
    }
  }

  lemma OwnCallKept(s: State, c: nat)
    requires Inv(s) && Live(s, c) && !Next(s, Step(c)).history.harmful
    ensures CallOk(Next(s, Step(c)), c)
  {
    assert CallOk(s, c);
  }

  lemma OtherCallKept(s: State, c: nat, d: nat)
    requires Inv(s) && Live(s, c) && !Next(s, Step(c)).history.harmful && c != d && d in s.calls
    ensures CallOk(Next(s, Step(c)), d)
  {
    assert CallOk(s, c);
    assert CallOk(s, d);
    if s.calls[c].pc.SecondProbe? && s.calls[c].pc.seen.pid in s.dead && Renaming(s, d) {
      OnlyRenamer(s, c, d);
    }
    forall t | t in s.history.orphaned
      ensures t != c
    {
      assert OrphanOk(s, t);
    }
  }

  lemma StepKept(s: State, c: nat)
    requires Inv(s) && Live(s, c) && !Next(s, Step(c)).history.harmful
    ensures Inv(Next(s, Step(c)))
  {
    var s' := Next(s, Step(c));
    ClaimRecordsKept(s, c);
    LockRecordKept(s, c);
    forall d | d in s'.calls
      ensures CallOk(s', d)
    {
      if d == c {
        OwnCallKept(s, c);
      } else {
        OtherCallKept(s, c, d);
      }
    }
  }

  lemma NextKept(s: State, a: Action)
    requires Inv(s) && !Next(s, a).history.harmful
    ensures Inv(Next(s, a))
  {
    match a
    case Start(pid) => StartKept(s, pid);
    case Die(pid) => DieKept(s, pid);
    case GiveUp(c) =>
      if At(s, c, Poll) {
        OutsideKept(s, Next(s, a), c, Exited);
      }
    case Step(c) =>
      if Live(s, c) {
        StepKept(s, c);
      }
  }

  lemma HarmStays(s: State, a: Action)
    ensures s.history.harmful ==> Next(s, a).history.harmful
  {
  }

  lemma {:induction false} Reachable(actions: seq<Action>)
    requires !Run(INIT, actions).history.harmful
    ensures Inv(Run(INIT, actions))
  {
    if actions != [] {
      var before := actions[..|actions| - 1];
      HarmStays(Run(INIT, before), actions[|actions| - 1]);
      Reachable(before);
      NextKept(Run(INIT, before), actions[|actions| - 1]);
    }
  }

  // ---------------------------------------------------------------- safety

  lemma HoldersAgree(s: State, c: nat, d: nat)
    requires Inv(s)
    requires Live(s, c) && Holding(s.calls[c].pc) && Live(s, d) && Holding(s.calls[d].pc)
    ensures c == d && s.lock == Some(Owner(s.calls[c].pid, c))
  {
    assert CallOk(s, c);
    assert CallOk(s, d);
  }

  /** In every run without a harmful judgement at most one live call holds the lock, and the
      lock in place is its own record. */
  lemma MutualExclusion(actions: seq<Action>, c: nat, d: nat)
    requires var s := Run(INIT, actions);
      && !s.history.harmful
      && Live(s, c) && Holding(s.calls[c].pc)
      && Live(s, d) && Holding(s.calls[d].pc)
    ensures c == d
    ensures Run(INIT, actions).lock == Some(Owner(Run(INIT, actions).calls[c].pid, c))
  {
    Reachable(actions);
    HoldersAgree(Run(INIT, actions), c, d);
  }

  /** ... nobody but the owner removes or replaces the lock record of a live process, */
  lemma LiveLockUntouched(actions: seq<Action>, a: Action)
    requires !Run(INIT, actions).history.harmful
    requires Run(INIT, actions).lock.Some? && Run(INIT, actions).lock.value.pid !in Run(INIT, actions).dead
    ensures Next(Run(INIT, actions), a).lock == Run(INIT, actions).lock
        || a == Step(Run(INIT, actions).lock.value.token)
  {
    var s := Run(INIT, actions);
    Reachable(actions);
    if a.Step? && Live(s, a.call) {
      assert CallOk(s, a.call);
    }
  }

  /** ... and nobody but the claimant removes or replaces the claim record of a live process. */
  lemma LiveClaimUntouched(actions: seq<Action>, a: Action, key: nat)
    requires !Run(INIT, actions).history.harmful
    requires key in Run(INIT, actions).claims && Run(INIT, actions).claims[key].pid !in Run(INIT, actions).dead
    ensures ClaimKept(Run(INIT, actions), a, key)
  {
    var s := Run(INIT, actions);
    Reachable(actions);
    if a.Step? && Live(s, a.call) {
      assert CallOk(s, a.call);
    }
    ClaimUntouched(s, a, key);
  }

  ghost predicate ClaimKept(s: State, a: Action, key: nat)
    requires key in s.claims
  {
    || (key in Next(s, a).claims && Next(s, a).claims[key] == s.claims[key])
    || (a.Step? && Live(s, a.call) && s.calls[a.call] == Call(s.claims[key].pid, ClaimRemove(key, s.claims[key].token)))
  }

  lemma ClaimUntouched(s: State, a: Action, key: nat)
    requires key in s.claims
    requires a.Step? && Live(s, a.call) ==> CallOk(s, a.call)
    ensures ClaimKept(s, a, key)
  {
    if a.Step? && Live(s, a.call) {
      match s.calls[a.call].pc
      case ClaimRemove(k, _) =>
        if k != key {
          assert Next(s, a).claims == s.claims - {k};
        }
      case ClaimLink(k) =>
      case _ => assert Next(s, a).claims == s.claims;
    }
  }

  // ---------------------------------------------------------------- when judgements are harmless

  predicate InPlace(s: State, token: nat) {
    s.lock.Some? && s.lock.value.token == token
  }

  /** With one orphan at most, a call past its first judgement has judged that orphan, and by
      the time it has named a claim for another record the orphan is gone for good. */
  ghost predicate OneOrphanOk(s: State, pc: Pc) {
    match pc
    case ReapRead => s.history.orphaned != {}
    case ClaimLink(key) => s.history.orphaned != {} && forall t :: t in s.history.orphaned ==>
        t == key || !InPlace(s, t)
    case SecondRead(key, _) => s.history.orphaned != {} && forall t :: t in s.history.orphaned ==>
        t == key || !InPlace(s, t)
    case SecondProbe(key, _, seen) => s.history.orphaned != {} && forall t :: t in s.history.orphaned ==>
        t == key || t != seen.token
    case _ => true
  }

  predicate FewDeaths(s: State) {
    !s.history.lateFirst && !s.history.lateSecond && |s.history.orphaned| <= 1
  }

  ghost predicate OrphansOk(s: State) {
    FewDeaths(s) ==>
      && !s.history.mismatch
      && forall c {:trigger Live(s, c)} :: Live(s, c) ==> OneOrphanOk(s, s.calls[c].pc)
  }

  /** A claimant that finds gone the process whose record names its claim, and which left
      that record behind, is about to remove exactly that record. */
  lemma MatchedIsSafe(s: State, c: nat)
    requires Inv(s) && Live(s, c) && s.calls[c].pc.SecondProbe? && s.calls[c].pc.seen.pid in s.dead
    requires s.calls[c].pc.seen.token == s.calls[c].pc.key && s.calls[c].pc.seen.token in s.history.orphaned
    ensures RenameSafe(s, c, s.calls[c].pc.key)
    ensures s.lock == Some(s.calls[c].pc.seen)
  {
    assert CallOk(s, c);
  }

  lemma AtMostOne(t: nat, u: nat, tokens: set<nat>)
    requires |tokens| <= 1 && t in tokens && u in tokens
    ensures t == u
  {
    assert |tokens - {t}| == 0;
  }

  /** A record that was left behind is never put back once it is gone. */
  lemma NotRevived(s: State, c: nat)
    requires Live(s, c)
    requires forall t :: t in s.history.orphaned ==> OrphanOk(s, t)
    ensures Next(s, Step(c)).history.orphaned == s.history.orphaned
    ensures forall t :: t in s.history.orphaned && InPlace(Next(s, Step(c)), t) ==> InPlace(s, t)
    ensures Next(s, Step(c)).calls.Keys == s.calls.Keys
    ensures forall d :: d in s.calls && d != c ==> Next(s, Step(c)).calls[d] == s.calls[d]
    ensures Next(s, Step(c)).dead == s.dead
  {
  }

  lemma OwnStepKept(s: State, c: nat)
    requires Live(s, c) && OneOrphanOk(s, s.calls[c].pc) && FewDeaths(Next(s, Step(c)))
    ensures OneOrphanOk(Next(s, Step(c)), Next(s, Step(c)).calls[c].pc)
  {
  }

  lemma NoMismatch(s: State, c: nat)
    requires Live(s, c) && OneOrphanOk(s, s.calls[c].pc) && FewDeaths(Next(s, Step(c))) && !s.history.mismatch
    ensures !Next(s, Step(c)).history.mismatch
  {
    var pc := s.calls[c].pc;
    if pc.SecondProbe? && pc.seen.pid in s.dead {
      assert pc.seen.token in s.history.orphaned;
    }
  }

  lemma DieOrphansKept(s: State, pid: nat)
    requires OrphansOk(s)
    ensures OrphansOk(Next(s, Die(pid)))
  {
    var s' := Next(s, Die(pid));
    if FewDeaths(s') {
      assert s'.history.orphaned == s.history.orphaned + (s'.history.orphaned - s.history.orphaned);
      forall c | Live(s', c)
        ensures OneOrphanOk(s', s'.calls[c].pc)
      {
        assert Live(s, c);
        if s.history.orphaned != {} {
          var t :| t in s.history.orphaned;
          forall u | u in s'.history.orphaned
            ensures u == t
          {
            AtMostOne(t, u, s'.history.orphaned);
          }
        }
      }
    }
  }

  lemma StepOrphansKept(s: State, c: nat)
    requires Inv(s) && OrphansOk(s) && Live(s, c)
    ensures OrphansOk(Next(s, Step(c)))
  {
    var s' := Next(s, Step(c));
    forall t | t in s.history.orphaned
      ensures OrphanOk(s, t)
    {
    }
    NotRevived(s, c);
    if FewDeaths(s') {
      assert FewDeaths(s);
      assert OneOrphanOk(s, s.calls[c].pc);
      OwnStepKept(s, c);
      NoMismatch(s, c);
      forall d | Live(s', d)
        ensures OneOrphanOk(s', s'.calls[d].pc)
      {
        assert Live(s, d);
      }
    }
  }

  lemma StartOrphansKept(s: State, pid: nat)
    requires Inv(s) && OrphansOk(s)
    ensures OrphansOk(Next(s, Start(pid)))
  {
    var s' := Next(s, Start(pid));
    forall c | FewDeaths(s') && Live(s', c)
      ensures OneOrphanOk(s', s'.calls[c].pc)
    {
      if c in s.calls {
        assert Live(s, c);
        assert c != s.nextToken;
      }
    }
  }

  lemma {:induction false} OrphansReachable(actions: seq<Action>)
    requires !Run(INIT, actions).history.harmful
    ensures OrphansOk(Run(INIT, actions))
  {
    if actions != [] {
      var before, a := actions[..|actions| - 1], actions[|actions| - 1];
      var s := Run(INIT, before);
      HarmStays(s, a);
      OrphansReachable(before);
      Reachable(before);
      match a
      case Start(pid) => StartOrphansKept(s, pid);
      case Die(pid) => DieOrphansKept(s, pid);
      case GiveUp(c) =>
        forall d | Live(Next(s, a), d)
          ensures Live(s, d)
        {
        }
      case Step(c) =>
        if Live(s, c) {
          StepOrphansKept(s, c);
        }
    }
  }

  /** Every process found gone under a claim had left its record behind, and either that
      record is the one the claim is named for, or no first judgement was late either and at
      most one process ever died with its lock record in place. */
  predicate Careful(s: State) {
    !s.history.lateSecond && (!s.history.mismatch || (!s.history.lateFirst && |s.history.orphaned| <= 1))
  }

  lemma Smaller(some: set<nat>, all: set<nat>)
    requires some <= all
    ensures |some| <= |all|
  {
    assert all == some + (all - some);
  }

  lemma OrphansGrow(s: State, a: Action)
    ensures s.history.orphaned <= Next(s, a).history.orphaned
  {
  }

  lemma CarefulStays(s: State, a: Action)
    requires Careful(Next(s, a))
    ensures Careful(s)
  {
    OrphansGrow(s, a);
    Smaller(s.history.orphaned, Next(s, a).history.orphaned);
  }

  lemma CarefulMatches(s: State, c: nat)
    requires OrphansOk(s) && Careful(Next(s, Step(c)))
    requires Live(s, c) && s.calls[c].pc.SecondProbe? && s.calls[c].pc.seen.pid in s.dead
    ensures s.calls[c].pc.seen.token == s.calls[c].pc.key && s.calls[c].pc.seen.token in s.history.orphaned
  {
    if FewDeaths(s) {
      assert OneOrphanOk(s, s.calls[c].pc);
    }
  }

  /** A careful run makes no harmful judgement, so everything above holds of it. */
  lemma {:induction false} CarefulIsHarmless(actions: seq<Action>)
    requires Careful(Run(INIT, actions))
    ensures !Run(INIT, actions).history.harmful
  {
    if actions != [] {
      var before, a := actions[..|actions| - 1], actions[|actions| - 1];
      var s := Run(INIT, before);
      CarefulStays(s, a);
      CarefulIsHarmless(before);
      Reachable(before);
      OrphansReachable(before);
      if a.Step? && Live(s, a.call) && s.calls[a.call].pc.SecondProbe? && s.calls[a.call].pc.seen.pid in s.dead {
        CarefulMatches(s, a.call);
        MatchedIsSafe(s, a.call);
      }
    }
  }

  // ---------------------------------------------------------------- and when they are not

  /** Call `c` holds a claim and is about to find the owner of the record it read gone. */
  predicate Judging(s: State, c: nat) {
    Live(s, c) && s.calls[c].pc.SecondProbe? && s.calls[c].pc.seen.pid in s.dead
  }

  /** The action is a judgement after which the rename is not safe. */
  ghost predicate Harms(s: State, a: Action) {
    a.Step? && Judging(s, a.call) && !RenameSafe(s, a.call, s.calls[a.call].pc.key)
  }

  /** No action from here on harms. */
  ghost predicate Harmless(s: State, actions: seq<Action>) {
    actions == []
    || (&& Harmless(s, actions[..|actions| - 1])
        && !Harms(Run(s, actions[..|actions| - 1]), actions[|actions| - 1]))
  }

  lemma HarmRecorded(s: State, a: Action)
    ensures Next(s, a).history.harmful <==> s.history.harmful || Harms(s, a)
  {
    if a.Step? && Live(s, a.call) {
      assert !s.calls[a.call].pc.SecondProbe? ==> HistoryAfter(s, a.call).harmful == s.history.harmful;
    }
  }

  lemma {:induction false} HarmlessMeans(s: State, actions: seq<Action>)
    ensures Run(s, actions).history.harmful <==> s.history.harmful || !Harmless(s, actions)
  {
    if actions != [] {
      HarmlessMeans(s, actions[..|actions| - 1]);
      HarmRecorded(Run(s, actions[..|actions| - 1]), actions[|actions| - 1]);
    }
  }

  /** Two live processes are inside the protected work at once. */
  ghost predicate Violated(s: State) {
    exists c, d :: At(s, c, Work) && At(s, d, Work) && s.calls[c].pid != s.calls[d].pid
  }

  /** Two live processes can get there without any further harm. */
  ghost predicate CanMeet(s: State) {
    exists rest :: Harmless(s, rest) && Violated(Run(s, rest))
  }

  lemma {:induction false} RunConcat(s: State, first: seq<Action>, more: seq<Action>)
    ensures Run(s, first + more) == Run(Run(s, first), more)
    ensures Harmless(s, first + more) <==> Harmless(s, first) && Harmless(Run(s, first), more)
  {
    if more == [] {
      assert first + more == first;
    } else {
      var all := first + more;
      assert all[..|all| - 1] == first + more[..|more| - 1];
      RunConcat(s, first, more[..|more| - 1]);
    }
  }

  lemma RunCons(s: State, a: Action, more: seq<Action>)
    ensures Run(s, [a] + more) == Run(Next(s, a), more)
    ensures Harmless(s, [a] + more) <==> !Harms(s, a) && Harmless(Next(s, a), more)
  {
    RunConcat(s, [a], more);
    assert [a][..0] == [];
  }

  lemma RunOne(s: State, a: Action)
    ensures Run(s, [a]) == Next(s, a)
    ensures Harmless(s, [a]) <==> !Harms(s, a)
  {
    RunCons(s, a, []);
    assert [a] + [] == [a];
  }

  lemma {:induction false} UnusedPid(avoid: set<nat>) returns (pid: nat)
    ensures forall used :: used in avoid ==> used < pid
  {
    if avoid == {} {
      pid := 0;
    } else {
      var used :| used in avoid;
      pid := UnusedPid(avoid - {used});
      pid := if pid > used then pid else used + 1;
      assert avoid == avoid - {used} + {used};
    }
  }

  ghost predicate TokensFresh(s: State) {
    forall c :: c in s.calls ==> c < s.nextToken
  }

  /** Some calls other than `c` made harmless steps and nobody died. */
  ghost predicate Around(s: State, actions: seq<Action>, c: nat) {
    var s' := Run(s, actions);
    && Harmless(s, actions) && s'.dead == s.dead && TokensFresh(s')
    && c in s.calls && c in s'.calls && s'.calls[c] == s.calls[c]
  }

  /** ... and every process they found gone had left its record behind. */
  ghost predicate NoneLate(s: State, actions: seq<Action>) {
    var h, h' := s.history, Run(s, actions).history;
    h'.orphaned == h.orphaned && h'.lateFirst == h.lateFirst && h'.lateSecond == h.lateSecond
  }

  /** A new process finds the lock free and is inside the work after one link. */
  lemma Enter(s: State, pid: nat) returns (s': State)
    requires s.lock.None? && pid !in s.dead && TokensFresh(s)
    ensures s' == Run(s, [Start(pid), Step(s.nextToken)]) && Harmless(s, [Start(pid), Step(s.nextToken)])
    ensures At(s', s.nextToken, Work) && s'.calls == s.calls[s.nextToken := Call(pid, Work)]
    ensures s'.dead == s.dead && s'.history == s.history && TokensFresh(s') && s'.nextToken == s.nextToken + 2
  {
    var s1 := Next(s, Start(pid));
    s' := Next(s1, Step(s.nextToken));
    RunCons(s, Start(pid), [Step(s.nextToken)]);
    RunOne(s1, Step(s.nextToken));
    assert [Start(pid)] + [Step(s.nextToken)] == [Start(pid), Step(s.nextToken)];
  }

  /** A call about to rename while the lock is free: a second process takes the lock, its
      record is renamed away, and a third process takes the lock as well. */
  lemma LateRenameBreaks(s: State, c: nat) returns (actions: seq<Action>)
    requires s.lock.None? && Renaming(s, c) && TokensFresh(s)
    ensures Violated(Run(s, actions)) && Run(s, actions).history == s.history && Harmless(s, actions)
  {
    var e, f := s.nextToken, s.nextToken + 3;
    var pid := UnusedPid(s.dead);
    var s1 := Enter(s, pid);
    var s2 := Next(s1, Step(c));
    var s3 := Enter(s2, pid + 1);
    assert At(s3, e, Work) && At(s3, f, Work);
    actions := [Start(pid), Step(e)] + ([Step(c)] + [Start(pid + 1), Step(f)]);
    RunConcat(s, [Start(pid), Step(e)], [Step(c)] + [Start(pid + 1), Step(f)]);
    RunCons(s1, Step(c), [Start(pid + 1), Step(f)]);
  }

  /** A live holder of the lock finishes. */
  lemma {:induction false} HolderFinishes(s: State, h: nat, c: nat) returns (actions: seq<Action>)
    requires TokensFresh(s) && Live(s, h) && Holding(s.calls[h].pc) && InPlace(s, h) && c in s.calls && c != h
    ensures Run(s, actions).lock.None? && Around(s, actions, c) && NoneLate(s, actions)
    decreases match s.calls[h].pc case Work => 3 case Release => 2 case _ => 1
  {
    var s' := Next(s, Step(h));
    if s.calls[h].pc.Remove? {
      actions := [Step(h)];
      RunOne(s, Step(h));
    } else {
      var more := HolderFinishes(s', h, c);
      actions := [Step(h)] + more;
      RunCons(s, Step(h), more);
    }
  }

  predicate Claimant(s: State, d: nat, key: nat) {
    HoldsClaim(s, d, key) && key in s.claims && s.claims[key].token == s.calls[d].pc.claim
  }

  /** A claimant of the dead record in place, whatever it is doing, can be run until either
      the lock is free or the claim is. */
  lemma {:induction false} ClaimantFinishes(s: State, d: nat, c: nat) returns (actions: seq<Action>)
    requires TokensFresh(s) && s.lock.Some? && s.lock.value.pid in s.dead && Claimant(s, d, s.lock.value.token)
    requires c in s.calls && c != d
    ensures Around(s, actions, c)
    ensures var s' := Run(s, actions);
      s'.lock.None? || (s'.lock == s.lock && s.lock.value.token !in s'.claims)
    decreases match s.calls[d].pc case SecondRead(_, _) => 5 case SecondProbe(_, _, _) => 4 case Rename(_, _, _) => 3
                                  case ClaimRelease(_, _) => 2 case _ => 1
  {
    var s' := Next(s, Step(d));
    if s.calls[d].pc.Rename? || s.calls[d].pc.ClaimRemove? {
      actions := [Step(d)];
      RunOne(s, Step(d));
    } else {
      var more := ClaimantFinishes(s', d, c);
      actions := [Step(d)] + more;
      RunCons(s, Step(d), more);
    }
  }

  /** Call `d` is taking over the dead record in place and can do so unhindered. */
  predicate TakingOver(s: State, d: nat) {
    && s.lock.Some? && s.lock.value.pid in s.dead && Live(s, d)
    && match s.calls[d].pc
       case Acquire => s.lock.value.token !in s.claims
       case FirstRead => s.lock.value.token !in s.claims
       case FirstProbe(seen) => seen == s.lock.value && s.lock.value.token !in s.claims
       case ReapRead => s.lock.value.token !in s.claims
       case ClaimLink(key) => key == s.lock.value.token && key !in s.claims
       case SecondRead(key, _) => key == s.lock.value.token
       case SecondProbe(key, _, seen) => key == s.lock.value.token && seen == s.lock.value
       case Rename(_, _, _) => true
       case _ => false
  }

  function StepsLeft(pc: Pc): nat {
    match pc
    case Acquire => 8
    case FirstRead => 7
    case FirstProbe(_) => 6
    case ReapRead => 5
    case ClaimLink(_) => 4
    case SecondRead(_, _) => 3
    case SecondProbe(_, _, _) => 2
    case _ => 1
  }

  /** ... and ends up removing it, undisturbing everybody else. */
  lemma {:induction false} TakeoverFinishes(s: State, d: nat) returns (actions: seq<Action>)
    requires TakingOver(s, d) && TokensFresh(s)
    ensures Run(s, actions).lock.None? && Run(s, actions).calls.Keys == s.calls.Keys
    ensures forall c :: c in s.calls && c != d ==> Around(s, actions, c)
    ensures Harmless(s, actions) && TokensFresh(Run(s, actions)) && Run(s, actions).dead == s.dead
    ensures s.lock.value.token in s.history.orphaned ==> NoneLate(s, actions)
    decreases StepsLeft(s.calls[d].pc)
  {
    var s' := Next(s, Step(d));
    if s.calls[d].pc.Rename? {
      actions := [Step(d)];
      RunOne(s, Step(d));
    } else {
      var more := TakeoverFinishes(s', d);
      actions := [Step(d)] + more;
      RunCons(s, Step(d), more);
      forall c | c in s.calls && c != d
        ensures Around(s, actions, c)
      {
        assert Around(s', more, c);
      }
    }
  }

  /** A dead record whose claim is free can be taken over by any new process. */
  lemma StaleLockIsReaped(s: State, pid: nat) returns (actions: seq<Action>)
    requires TokensFresh(s) && s.lock.Some? && s.lock.value.pid in s.dead && s.lock.value.token !in s.claims
    requires pid !in s.dead
    ensures Run(s, actions).lock.None? && Harmless(s, actions)
    ensures forall c :: c in s.calls ==> Around(s, actions, c)
    ensures TokensFresh(Run(s, actions))
    ensures s.lock.value.token in s.history.orphaned ==> NoneLate(s, actions)
  {
    var s' := Next(s, Start(pid));
    var more := TakeoverFinishes(s', s.nextToken);
    actions := [Start(pid)] + more;
    RunCons(s, Start(pid), more);
    forall c | c in s.calls
      ensures Around(s, actions, c)
    {
      assert Around(s', more, c);
    }
  }

  /** The dead record in place can always be taken away while `c` waits to rename, by a live
      claimant of it or, if the claim is free, by a new process. */
  lemma DeadRecordGoes(s: State, c: nat) returns (actions: seq<Action>)
    requires TokensFresh(s) && c in s.calls && s.lock.Some? && s.lock.value.pid in s.dead
    requires var key := s.lock.value.token;
      key in s.claims ==> exists d :: d != c && Claimant(s, d, key)
    ensures Run(s, actions).lock.None? && Around(s, actions, c)
  {
    var key := s.lock.value.token;
    var pid := UnusedPid(s.dead);
    if key !in s.claims {
      actions := StaleLockIsReaped(s, pid);
      assert Around(s, actions, c);
    } else {
      var d :| d != c && Claimant(s, d, key);
      actions := ClaimantFinishes(s, d, c);
      var s' := Run(s, actions);
      if s'.lock.Some? {
        var more := StaleLockIsReaped(s', pid);
        assert Around(s', more, c);
        RunConcat(s, actions, more);
        actions := actions + more;
      }
    }
  }

  /** What one judgement leaves of the state it was made in. */
  lemma AfterJudgement(s: State, c: nat)
    requires Inv(s) && Judging(s, c)
    ensures var t := Next(s, Step(c));
      && Renaming(t, c) && TokensFresh(t) && t.lock == s.lock && t.claims == s.claims && t.dead == s.dead
      && t.calls.Keys == s.calls.Keys && forall d :: d in s.calls && d != c ==> t.calls[d] == s.calls[d]
  {
  }

  /** After a judgement that is not safe the lock can be made free behind the back of the call
      that is about to rename it. */
  lemma CanBecomeVacant(s: State, c: nat) returns (actions: seq<Action>)
    requires Inv(s) && Judging(s, c) && !RenameSafe(s, c, s.calls[c].pc.key)
    ensures var t := Next(s, Step(c));
      Run(t, actions).lock.None? && Around(t, actions, c)
  {
    var t := Next(s, Step(c));
    AfterJudgement(s, c);
    assert CallOk(s, c);
    if s.lock.None? {
      actions := [];
    } else if s.lock.value.pid !in s.dead {
      assert InPlaceOk(s, s.lock.value);
      actions := HolderFinishes(t, s.lock.value.token, c);
    } else {
      var key := s.lock.value.token;
      if key in s.claims && s.claims[key].pid in s.dead {
        var d :| Renaming(s, d) && d != c;
        actions := [Step(d)];
        RunOne(t, Step(d));
      } else {
        if key in s.claims {
          assert ClaimOk(s, key);
          var d := s.history.drawn[s.claims[key].token];
          assert CallOk(s, d);
          assert Claimant(t, d, key);
        }
        actions := DeadRecordGoes(t, c);
      }
    }
  }

  /** A harmful judgement, in any state that was reached without one, can be continued without
      another one until two live processes are inside the work. */
  lemma HarmfulJudgementBreaks(actions: seq<Action>, c: nat) returns (rest: seq<Action>)
    requires var s := Run(INIT, actions);
      !s.history.harmful && Judging(s, c) && !RenameSafe(s, c, s.calls[c].pc.key)
    ensures Harmless(Next(Run(INIT, actions), Step(c)), rest)
    ensures Violated(Run(Next(Run(INIT, actions), Step(c)), rest))
    ensures CanMeet(Next(Run(INIT, actions), Step(c)))
  {
    var s := Run(INIT, actions);
    Reachable(actions);
    AfterJudgement(s, c);
    var t := Next(s, Step(c));
    var vacate := CanBecomeVacant(s, c);
    var enter := LateRenameBreaks(Run(t, vacate), c);
    rest := vacate + enter;
    RunConcat(t, vacate, enter);
  }

  lemma ViolationIsHarmful(actions: seq<Action>)
    requires Violated(Run(INIT, actions))
    ensures Run(INIT, actions).history.harmful
  {
    if !Run(INIT, actions).history.harmful {
      var s := Run(INIT, actions);
      var c, d :| At(s, c, Work) && At(s, d, Work) && s.calls[c].pid != s.calls[d].pid;
      MutualExclusion(actions, c, d);
    }
  }

  /** A harmless run leads nowhere from where two processes meet without harm. */
  lemma HarmlessRunIsSafe(actions: seq<Action>)
    requires !Run(INIT, actions).history.harmful
    ensures !CanMeet(Run(INIT, actions))
  {
    var s := Run(INIT, actions);
    forall rest | Harmless(s, rest)
      ensures !Violated(Run(s, rest))
    {
      RunConcat(INIT, actions, rest);
      HarmlessMeans(s, rest);
      if Violated(Run(s, rest)) {
        ViolationIsHarmful(actions + rest);
      }
    }
  }

  /** Whenever a call judges, in a run without harm so far, its judgement lets two processes
      meet by itself, without any other harm, exactly if the rename is not safe. */
  lemma JudgementBreaksExactly(actions: seq<Action>, c: nat)
    requires !Run(INIT, actions).history.harmful && Judging(Run(INIT, actions), c)
    ensures var s := Run(INIT, actions);
      CanMeet(Next(s, Step(c))) <==> !RenameSafe(s, c, s.calls[c].pc.key)
  {
    var s := Run(INIT, actions);
    if RenameSafe(s, c, s.calls[c].pc.key) {
      RunConcat(INIT, actions, [Step(c)]);
      RunOne(s, Step(c));
      HarmlessRunIsSafe(actions + [Step(c)]);
    } else {
      var rest := HarmfulJudgementBreaks(actions, c);
    }
  }

  /** Before a run first turns harmful some call judges harmfully. */
  lemma {:induction false} FirstHarm(actions: seq<Action>) returns (before: seq<Action>, c: nat)
    requires Run(INIT, actions).history.harmful
    ensures |before| < |actions| && before == actions[..|before|]
    ensures actions[|before|] == Step(c)
    ensures var s := Run(INIT, before);
      !s.history.harmful && Judging(s, c) && !RenameSafe(s, c, s.calls[c].pc.key)
  {
    var shorter, a := actions[..|actions| - 1], actions[|actions| - 1];
    if Run(INIT, shorter).history.harmful {
      before, c := FirstHarm(shorter);
    } else {
      before, c := shorter, a.call;
    }
  }

  lemma HarmLeadsToMeeting(actions: seq<Action>) returns (n: nat)
    requires Run(INIT, actions).history.harmful
    ensures n <= |actions| && CanMeet(Run(INIT, actions[..n]))
  {
    var before, c := FirstHarm(actions);
    n := |before| + 1;
    var rest := HarmfulJudgementBreaks(before, c);
    RunConcat(INIT, before, [Step(c)]);
    RunOne(Run(INIT, before), Step(c));
    assert actions[..n] == before + [Step(c)];
  }

  lemma HarmLasts(actions: seq<Action>, n: nat)
    requires n <= |actions| && Run(INIT, actions[..n]).history.harmful
    ensures Run(INIT, actions).history.harmful
  {
    assert actions == actions[..n] + actions[n..];
    RunConcat(INIT, actions[..n], actions[n..]);
    HarmlessMeans(Run(INIT, actions[..n]), actions[n..]);
  }

  /** A run judged harmfully exactly if from some point of it on two processes can meet without
      further harm: a run without harm has no such point. */
  lemma BreaksExactlyWhenHarmful(actions: seq<Action>)
    ensures Run(INIT, actions).history.harmful
       <==> exists n :: 0 <= n <= |actions| && CanMeet(Run(INIT, actions[..n]))
  {
    if Run(INIT, actions).history.harmful {
      var n := HarmLeadsToMeeting(actions);
    }
    if n :| 0 <= n <= |actions| && CanMeet(Run(INIT, actions[..n])) {
      if !Run(INIT, actions[..n]).history.harmful {
        HarmlessRunIsSafe(actions[..n]);
      }
      HarmLasts(actions, n);
    }
  }

  // ---------------------------------------------------------------- who waits gets in

  /** So many steps of one call and of nobody else. */
  function Steps(c: nat, n: nat): seq<Action> {
    if n == 0 then [] else [Step(c)] + Steps(c, n - 1)
  }

  lemma TwoSteps(s: State, c: nat)
    ensures Run(s, Steps(c, 2)) == Next(Next(s, Step(c)), Step(c))
    ensures Harmless(s, Steps(c, 2)) <==> !Harms(s, Step(c)) && !Harms(Next(s, Step(c)), Step(c))
  {
    RunCons(s, Step(c), Steps(c, 1));
    RunCons(Next(s, Step(c)), Step(c), []);
    assert Steps(c, 1) == [Step(c)] + [];
  }

  /** A waiting call that finds the lock free is inside the work after two steps of its own. */
  lemma PollEnters(s: State, c: nat)
    requires s.lock.None? && At(s, c, Poll)
    ensures Harmless(s, Steps(c, 2)) && At(Run(s, Steps(c, 2)), c, Work)
  {
    TwoSteps(s, c);
  }

  predicate PastRename(s: State, c: nat) {
    && s.lock.None? && Live(s, c)
    && match s.calls[c].pc
       case ClaimRelease(_, _) => true
       case ClaimRemove(_, _) => true
       case Poll => true
       case Acquire => true
       case _ => false
  }

  /** The claims once the call has given up the one it removes or may remove. */
  function ClaimsReaped(s: State, c: nat): map<nat, Owner>
    requires c in s.calls
  {
    match s.calls[c].pc
    case ClaimRelease(key, claim) => if key in s.claims && s.claims[key].token == claim then s.claims - {key}
        else s.claims
    case ClaimRemove(key, _) => s.claims - {key}
    case _ => s.claims
  }

  function ReapLeft(pc: Pc): nat {
    match pc case ClaimRelease(_, _) => 4 case ClaimRemove(_, _) => 3 case Poll => 2 case _ => 1
  }

  lemma ReaperStep(s: State, c: nat)
    requires PastRename(s, c) && !s.calls[c].pc.Acquire?
    ensures !Harms(s, Step(c)) && PastRename(Next(s, Step(c)), c)
    ensures ClaimsReaped(Next(s, Step(c)), c) == ClaimsReaped(s, c)
    ensures ReapLeft(Next(s, Step(c)).calls[c].pc) < ReapLeft(s.calls[c].pc)
  {
  }

  /** Having moved the record away, a call gives its claim up and takes the lock. */
  lemma {:induction false} ReaperEnters(s: State, c: nat) returns (n: nat)
    requires PastRename(s, c)
    ensures Harmless(s, Steps(c, n)) && At(Run(s, Steps(c, n)), c, Work)
    ensures Run(s, Steps(c, n)).claims == ClaimsReaped(s, c)
    decreases ReapLeft(s.calls[c].pc)
  {
    if s.calls[c].pc.Acquire? {
      n := 1;
      RunCons(s, Step(c), []);
      assert Steps(c, 1) == [Step(c)] + [];
    } else {
      ReaperStep(s, c);
      var rest := ReaperEnters(Next(s, Step(c)), c);
      n := rest + 1;
      RunCons(s, Step(c), Steps(c, rest));
    }
  }

  predicate OwnClaim(s: State, c: nat) {
    && c in s.calls && Claiming(s.calls[c].pc)
    && s.calls[c].pc.key in s.claims && s.claims[s.calls[c].pc.key].token == s.calls[c].pc.claim
  }

  /** The claims a takeover leaves: the caller's own is gone, the others are as they were. */
  function ClaimsLeft(s: State, c: nat): map<nat, Owner> {
    if OwnClaim(s, c) then s.claims - {s.calls[c].pc.key} else s.claims
  }

  /** Taking over, with the claim that it has made its own. */
  predicate Taker(s: State, c: nat) {
    TakingOver(s, c) && (Claiming(s.calls[c].pc) ==> OwnClaim(s, c))
  }

  lemma TakerRenames(s: State, c: nat)
    requires Taker(s, c) && s.calls[c].pc.Rename?
    ensures !Harms(s, Step(c)) && PastRename(Next(s, Step(c)), c)
    ensures ClaimsReaped(Next(s, Step(c)), c) == ClaimsLeft(s, c)
  {
  }

  lemma TakerStep(s: State, c: nat)
    requires Taker(s, c) && !s.calls[c].pc.Rename?
    ensures !Harms(s, Step(c)) && Taker(Next(s, Step(c)), c)
    ensures ClaimsLeft(Next(s, Step(c)), c) == ClaimsLeft(s, c)
    ensures StepsLeft(Next(s, Step(c)).calls[c].pc) < StepsLeft(s.calls[c].pc)
  {
  }

  /** A call that can take the dead record in place over unhindered gets inside the work by its
      own steps, and leaves no claim behind. */
  lemma {:induction false} TakerEnters(s: State, c: nat) returns (n: nat)
    requires Taker(s, c)
    ensures Harmless(s, Steps(c, n)) && At(Run(s, Steps(c, n)), c, Work)
    ensures Run(s, Steps(c, n)).claims == ClaimsLeft(s, c)
    decreases StepsLeft(s.calls[c].pc)
  {
    var rest;
    if s.calls[c].pc.Rename? {
      TakerRenames(s, c);
      rest := ReaperEnters(Next(s, Step(c)), c);
    } else {
      TakerStep(s, c);
      rest := TakerEnters(Next(s, Step(c)), c);
    }
    n := rest + 1;
    RunCons(s, Step(c), Steps(c, rest));
  }

  lemma PollStarts(s: State, c: nat)
    requires At(s, c, Poll) && s.lock.Some? && s.lock.value.pid in s.dead && s.lock.value.token !in s.claims
    ensures !Harms(s, Step(c)) && Taker(Next(s, Step(c)), c)
    ensures ClaimsLeft(Next(s, Step(c)), c) == s.claims
  {
  }

  /** A waiting call finds a dead record whose claim is free, takes it over and gets in, all by
      its own steps, and leaves the claims as they were. */
  lemma PollTakesOver(s: State, c: nat) returns (n: nat)
    requires At(s, c, Poll) && s.lock.Some? && s.lock.value.pid in s.dead && s.lock.value.token !in s.claims
    ensures Harmless(s, Steps(c, n)) && At(Run(s, Steps(c, n)), c, Work)
    ensures Run(s, Steps(c, n)).claims == s.claims
  {
    PollStarts(s, c);
    var rest := TakerEnters(Next(s, Step(c)), c);
    n := rest + 1;
    RunCons(s, Step(c), Steps(c, rest));
  }

  /** The record in place is a dead process's, and so is the claim to take it over. */
  predicate Abandoned(s: State) {
    && s.lock.Some? && s.lock.value.pid in s.dead
    && s.lock.value.token in s.claims && s.claims[s.lock.value.token].pid in s.dead
  }

  /** Other calls can be run until a waiting one finds the lock free, or a dead record with a
      free claim. */
  lemma WayIsCleared(s: State, c: nat) returns (more: seq<Action>)
    requires Inv(s) && At(s, c, Poll) && !Abandoned(s)
    ensures Around(s, more, c)
    ensures var s' := Run(s, more);
      s'.lock.Some? ==> s'.lock.value.pid in s'.dead && s'.lock.value.token !in s'.claims
  {
    more := [];
    if s.lock.Some? && s.lock.value.pid !in s.dead {
      assert InPlaceOk(s, s.lock.value);
      more := HolderFinishes(s, s.lock.value.token, c);
    } else if s.lock.Some? && s.lock.value.token in s.claims {
      var key := s.lock.value.token;
      assert ClaimOk(s, key);
      var d := s.history.drawn[s.claims[key].token];
      assert CallOk(s, d);
      more := ClaimantFinishes(s, d, c);
    }
  }

  /** In every run without harm, a waiting call can be brought inside the work without harm,
      whoever holds the lock, unless the record and its claim are both abandoned. */
  lemma WaiterEnters(actions: seq<Action>, c: nat) returns (more: seq<Action>)
    requires !Run(INIT, actions).history.harmful
    requires At(Run(INIT, actions), c, Poll) && !Abandoned(Run(INIT, actions))
    ensures Harmless(Run(INIT, actions), more) && At(Run(INIT, actions + more), c, Work)
  {
    var s := Run(INIT, actions);
    Reachable(actions);
    var before := WayIsCleared(s, c);
    var s' := Run(s, before);
    var n := 2;
    if s'.lock.Some? {
      n := PollTakesOver(s', c);
    } else {
      PollEnters(s', c);
    }
    more := before + Steps(c, n);
    RunConcat(s, before, Steps(c, n));
    RunConcat(INIT, actions, more);
  }

  /** Abandoned, and no live call on its way to a rename under another claim. */
  ghost predicate FailedClosed(s: State) {
    && Inv(s) && !s.history.harmful && Abandoned(s)
    && forall d :: Live(s, d) ==> OffTheRename(s, d)
  }

  predicate OffTheRename(s: State, d: nat)
    requires s.lock.Some? && d in s.calls
  {
    match s.calls[d].pc
    case SecondRead(_, _) => false
    case SecondProbe(_, _, _) => false
    case Rename(_, _, _) => false
    case ClaimLink(key) => key == s.lock.value.token
    case _ => true
  }

  lemma ClosedStep(s: State, a: Action)
    requires FailedClosed(s)
    ensures Abandoned(Next(s, a)) && Next(s, a).lock == s.lock
    ensures forall d :: Live(Next(s, a), d) ==> OffTheRename(Next(s, a), d)
  {
    if a.Step? && Live(s, a.call) {
      assert CallOk(s, a.call);
      assert OffTheRename(s, a.call);
    }
    forall d | Live(Next(s, a), d)
      ensures OffTheRename(Next(s, a), d)
    {
      if d in s.calls && Live(s, d) {
        assert OffTheRename(s, d);
      }
    }
  }

  lemma FailedClosedKept(s: State, a: Action)
    requires FailedClosed(s)
    ensures FailedClosed(Next(s, a)) && Next(s, a).lock == s.lock && !Harms(s, a)
  {
    HarmRecorded(s, a);
    assert !Harms(s, a);
    NextKept(s, a);
    ClosedStep(s, a);
  }

  /** From then on the record stays, nobody is ever inside the work again, and nothing harms. */
  lemma {:induction false} FailsClosed(s: State, more: seq<Action>, c: nat)
    requires FailedClosed(s)
    ensures FailedClosed(Run(s, more)) && Run(s, more).lock == s.lock && Harmless(s, more)
    ensures !At(Run(s, more), c, Work)
  {
    if more != [] {
      FailsClosed(s, more[..|more| - 1], c);
      FailedClosedKept(Run(s, more[..|more| - 1]), more[|more| - 1]);
    }
    assert c in Run(s, more).calls ==> CallOk(Run(s, more), c);
  }

  predicate GivingUp(s: State, c: nat) {
    && Abandoned(s) && Live(s, c)
    && var r := s.lock.value;
       match s.calls[c].pc
       case Acquire => true
       case FirstRead => true
       case FirstProbe(seen) => seen == r
       case ReapRead => true
       case ClaimLink(key) => key == r.token
       case ClaimRead(key) => key == r.token
       case ClaimProbe(claimant) => claimant == s.claims[r.token]
       case Poll => true
       case Exited => true
       case _ => false
  }

  function StepsToFailure(pc: Pc): nat {
    match pc
    case Poll => 8
    case Acquire => 7
    case FirstRead => 6
    case FirstProbe(_) => 5
    case ReapRead => 4
    case ClaimLink(_) => 3
    case ClaimRead(_) => 2
    case ClaimProbe(_) => 1
    case _ => 0
  }

  /** A waiting call that finds record and claim abandoned fails after eight steps of its own. */
  lemma {:induction false} WaiterFails(s: State, c: nat)
    requires GivingUp(s, c)
    ensures At(Run(s, Steps(c, StepsToFailure(s.calls[c].pc))), c, Exited)
    decreases StepsToFailure(s.calls[c].pc)
  {
    if !s.calls[c].pc.Exited? {
      var s' := Next(s, Step(c));
      WaiterFails(s', c);
      RunCons(s, Step(c), Steps(c, StepsToFailure(s'.calls[c].pc)));
    }
  }
}
