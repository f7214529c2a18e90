/** Two runs of the private-file lock in which two processes are inside the work at once.
    Each shows that one half of the condition for safety cannot be dropped. */
module FileLockRuns {
  import opened FileLock
  import opened Wrappers

  lemma Extend(actions: seq<Action>, s: State, a: Action) returns (longer: seq<Action>, s': State)
    requires s == Run(INIT, actions)
    ensures longer == actions + [a] && s' == Next(s, a)
    ensures s' == Run(INIT, longer)
  {
    longer, s' := actions + [a], Next(s, a);
    assert longer[..|longer| - 1] == actions;
  }

  /** A step that only moves its call. */
  lemma Move(actions: seq<Action>, s: State, c: nat, pc: Pc) returns (longer: seq<Action>, s': State)
    requires s == Run(INIT, actions) && Live(s, c) && !s.calls[c].pc.Exited? && PcAfter(s, c) == pc
    requires LockAfter(s, c) == s.lock && ClaimsAfter(s, c) == s.claims && HistoryAfter(s, c) == s.history
    ensures s' == s.(calls := s.calls[c := Call(s.calls[c].pid, pc)], nextToken := s.nextToken + 1)
    ensures s' == Run(INIT, longer)
  {
    longer, s' := Extend(actions, s, Step(c));
  }

  /** The work of call `c` ends, and it finds its own record in place. */
  lemma Leave(actions: seq<Action>, s: State, c: nat) returns (longer: seq<Action>, s': State)
    requires s == Run(INIT, actions) && At(s, c, Work) && InPlace(s, c)
    ensures s' == s.(calls := s.calls[c := Call(s.calls[c].pid, Remove)], nextToken := s.nextToken + 2)
    ensures s' == Run(INIT, longer)
  {
    longer, s' := Extend(actions, s, Step(c));
    assert s'.calls == s.calls[c := Call(s.calls[c].pid, Release)];
    longer, s' := Extend(longer, s', Step(c));
    assert s'.calls == s.calls[c := Call(s.calls[c].pid, Remove)];
  }

  /** Process 1 has read the record of process 0. */
  const LATE_1 := State(
    Some(Owner(0, 0)),
    map[],
    map[0 := Call(0, Work), 2 := Call(1, FirstProbe(Owner(0, 0)))],
    {},
    5,
    History(map[], None, {}, false, false, false, false))

  lemma Late1() returns (actions: seq<Action>)
    ensures Run(INIT, actions) == LATE_1
  {
    var s := INIT;
    actions := [];
    actions, s := Extend(actions, s, Start(0));
    actions, s := Extend(actions, s, Step(0));
    actions, s := Extend(actions, s, Start(1));
    actions, s := Extend(actions, s, Step(2));
    actions, s := Extend(actions, s, Step(2));
    assert s == LATE_1;
  }

  /** Process 0 is about to remove its record. */
  const LATE_2 := State(
    Some(Owner(0, 0)),
    map[],
    map[0 := Call(0, Remove), 2 := Call(1, FirstProbe(Owner(0, 0)))],
    {},
    7,
    History(map[], None, {}, false, false, false, false))

  lemma Late2() returns (actions: seq<Action>)
    ensures Run(INIT, actions) == LATE_2
  {
    var s := LATE_1;
    actions := Late1();
    actions, s := Leave(actions, s, 0);
    assert s == LATE_2;
  }

  /** Process 0 released its record and exited. */
  const LATE_3 := State(
    None,
    map[],
    map[0 := Call(0, Exited), 2 := Call(1, FirstProbe(Owner(0, 0)))],
    {0},
    8,
    History(map[], None, {}, false, false, false, false))

  lemma Late3() returns (actions: seq<Action>)
    ensures Run(INIT, actions) == LATE_3
  {
    var s := LATE_2;
    actions := Late2();
    actions, s := Extend(actions, s, Step(0));
    actions, s := Extend(actions, s, Die(0));
    assert s == LATE_3;
  }

  /** Process 2 works; process 1 finds the owner of the record it read gone. */
  const LATE_4 := State(
    Some(Owner(2, 8)),
    map[],
    map[0 := Call(0, Exited), 2 := Call(1, ReapRead), 8 := Call(2, Work)],
    {0},
    11,
    History(map[], None, {}, true, false, false, false))

  lemma Late4() returns (actions: seq<Action>)
    ensures Run(INIT, actions) == LATE_4
  {
    var s := LATE_3;
    actions := Late3();
    actions, s := Extend(actions, s, Start(2));
    actions, s := Extend(actions, s, Step(8));
    actions, s := Extend(actions, s, Step(2));
    assert s == LATE_4;
  }

  /** Process 1 claims the takeover of the record of process 2 and reads it again. */
  const LATE_5 := State(
    Some(Owner(2, 8)),
    map[8 := Owner(1, 12)],
    map[0 := Call(0, Exited), 2 := Call(1, SecondProbe(8, 12, Owner(2, 8))), 8 := Call(2, Work)],
    {0},
    14,
    History(map[12 := 2], None, {}, true, false, false, false))

  lemma Late5() returns (actions: seq<Action>)
    ensures Run(INIT, actions) == LATE_5
  {
    var s := LATE_4;
    actions := Late4();
    actions, s := Move(actions, s, 2, ClaimLink(8));
    actions, s := Extend(actions, s, Step(2));
    actions, s := Move(actions, s, 2, SecondProbe(8, 12, Owner(2, 8)));
    assert s == LATE_5;
  }

  /** Process 2 is about to remove its record. */
  const LATE_6 := State(
    Some(Owner(2, 8)),
    map[8 := Owner(1, 12)],
    map[0 := Call(0, Exited), 2 := Call(1, SecondProbe(8, 12, Owner(2, 8))), 8 := Call(2, Remove)],
    {0},
    16,
    History(map[12 := 2], None, {}, true, false, false, false))

  lemma Late6() returns (actions: seq<Action>)
    ensures Run(INIT, actions) == LATE_6
  {
    var s := LATE_5;
    actions := Late5();
    actions, s := Leave(actions, s, 8);
    assert s == LATE_6;
  }

  /** Process 2 released its record and exited as well. */
  const LATE_7 := State(
    None,
    map[8 := Owner(1, 12)],
    map[0 := Call(0, Exited), 2 := Call(1, SecondProbe(8, 12, Owner(2, 8))), 8 := Call(2, Exited)],
    {0, 2},
    17,
    History(map[12 := 2], None, {}, true, false, false, false))

  lemma Late7() returns (actions: seq<Action>)
    ensures Run(INIT, actions) == LATE_7
  {
    var s := LATE_6;
    actions := Late6();
    actions, s := Extend(actions, s, Step(8));
    actions, s := Extend(actions, s, Die(2));
    assert s == LATE_7;
  }

  /** A run in which no process ever dies with its lock record in place and every judgement
      under a claim is of the record the claim is named for, and which still puts two
      processes inside the work: twice an owner releases its record and exits between the
      read of that record and the probe of its owner. */
  lemma ProbeAfterReleaseBreaks() returns (actions: seq<Action>)
    ensures var s := Run(INIT, actions);
      Violated(s) && s.history.orphaned == {} && !s.history.mismatch
  {
    var s;
    actions := Late7();
    actions, s := Extend(actions, LATE_7, Step(2));
    var more := LateRenameBreaks(s, 2);
    RunConcat(INIT, actions, more);
    actions := actions + more;
  }

  /** Process 0 died with its record in place. */
  const ORPHAN_1 := State(
    Some(Owner(0, 0)),
    map[],
    map[0 := Call(0, Work)],
    {0},
    2,
    History(map[], None, {0}, false, false, false, false))

  lemma Orphan1() returns (actions: seq<Action>)
    ensures Run(INIT, actions) == ORPHAN_1
  {
    var s := INIT;
    actions := [];
    actions, s := Extend(actions, s, Start(0));
    actions, s := Extend(actions, s, Step(0));
    actions, s := Extend(actions, s, Die(0));
    assert s == ORPHAN_1;
  }

  /** Process 1 has judged that record. */
  const ORPHAN_2 := State(
    Some(Owner(0, 0)),
    map[],
    map[0 := Call(0, Work), 2 := Call(1, ReapRead)],
    {0},
    6,
    History(map[], None, {0}, false, false, false, false))

  lemma Orphan2() returns (actions: seq<Action>)
    ensures Run(INIT, actions) == ORPHAN_2
  {
    var s := ORPHAN_1;
    actions := Orphan1();
    actions, s := Extend(actions, s, Start(1));
    actions, s := Move(actions, s, 2, FirstRead);
    actions, s := Move(actions, s, 2, FirstProbe(Owner(0, 0)));
    actions, s := Move(actions, s, 2, ReapRead);
    assert s == ORPHAN_2;
  }

  /** Process 2 reads it as well. */
  const ORPHAN_3 := State(
    Some(Owner(0, 0)),
    map[],
    map[0 := Call(0, Work), 2 := Call(1, ReapRead), 6 := Call(2, FirstProbe(Owner(0, 0)))],
    {0},
    9,
    History(map[], None, {0}, false, false, false, false))

  lemma Orphan3() returns (actions: seq<Action>)
    ensures Run(INIT, actions) == ORPHAN_3
  {
    var s := ORPHAN_2;
    actions := Orphan2();
    actions, s := Extend(actions, s, Start(2));
    actions, s := Move(actions, s, 6, FirstRead);
    actions, s := Move(actions, s, 6, FirstProbe(Owner(0, 0)));
    assert s == ORPHAN_3;
  }

  /** Process 2 is about to claim its takeover. */
  const ORPHAN_4 := State(
    Some(Owner(0, 0)),
    map[],
    map[0 := Call(0, Work), 2 := Call(1, ReapRead), 6 := Call(2, ClaimLink(0))],
    {0},
    11,
    History(map[], None, {0}, false, false, false, false))

  lemma Orphan4() returns (actions: seq<Action>)
    ensures Run(INIT, actions) == ORPHAN_4
  {
    var s := ORPHAN_3;
    actions := Orphan3();
    actions, s := Move(actions, s, 6, ReapRead);
    actions, s := Move(actions, s, 6, ClaimLink(0));
    assert s == ORPHAN_4;
  }

  /** Process 2 holds the claim and reads the record again. */
  const ORPHAN_5 := State(
    Some(Owner(0, 0)),
    map[0 := Owner(2, 11)],
    map[0 := Call(0, Work), 2 := Call(1, ReapRead), 6 := Call(2, SecondProbe(0, 11, Owner(0, 0)))],
    {0},
    13,
    History(map[11 := 6], None, {0}, false, false, false, false))

  lemma Orphan5() returns (actions: seq<Action>)
    ensures Run(INIT, actions) == ORPHAN_5
  {
    var s := ORPHAN_4;
    actions := Orphan4();
    actions, s := Extend(actions, s, Step(6));
    actions, s := Move(actions, s, 6, SecondProbe(0, 11, Owner(0, 0)));
    assert s == ORPHAN_5;
  }

  /** Process 2 took it over. */
  const ORPHAN_6 := State(
    None,
    map[0 := Owner(2, 11)],
    map[0 := Call(0, Work), 2 := Call(1, ReapRead), 6 := Call(2, ClaimRelease(0, 11))],
    {0},
    15,
    History(map[11 := 6], Some(6), {0}, false, false, false, false))

  lemma Orphan6() returns (actions: seq<Action>)
    ensures Run(INIT, actions) == ORPHAN_6
  {
    var s := ORPHAN_5;
    actions := Orphan5();
    actions, s := Extend(actions, s, Step(6));
    assert s.calls == ORPHAN_5.calls[6 := Call(2, Rename(0, 11, Owner(0, 0)))];
    actions, s := Extend(actions, s, Step(6));
    assert s == ORPHAN_6;
  }

  /** Process 3 works. */
  const ORPHAN_7 := State(
    Some(Owner(3, 15)),
    map[0 := Owner(2, 11)],
    map[0 := Call(0, Work), 2 := Call(1, ReapRead), 6 := Call(2, ClaimRelease(0, 11)), 15 := Call(3, Work)],
    {0},
    17,
    History(map[11 := 6], Some(6), {0}, false, false, false, false))

  lemma Orphan7() returns (actions: seq<Action>)
    ensures Run(INIT, actions) == ORPHAN_7
  {
    var s := ORPHAN_6;
    actions := Orphan6();
    actions, s := Extend(actions, s, Start(3));
    actions, s := Extend(actions, s, Step(15));
    assert s == ORPHAN_7;
  }

  /** Process 1 claims the takeover of the record of process 3. */
  const ORPHAN_8 := State(
    Some(Owner(3, 15)),
    map[0 := Owner(2, 11), 15 := Owner(1, 18)],
    map[0 := Call(0, Work), 2 := Call(1, SecondRead(15, 18)), 6 := Call(2, ClaimRelease(0, 11)), 15 := Call(3, Work)],
    {0},
    19,
    History(map[11 := 6, 18 := 2], Some(6), {0}, false, false, false, false))

  lemma Orphan8() returns (actions: seq<Action>)
    ensures Run(INIT, actions) == ORPHAN_8
  {
    var s := ORPHAN_7;
    actions := Orphan7();
    actions, s := Move(actions, s, 2, ClaimLink(15));
    actions, s := Extend(actions, s, Step(2));
    assert s == ORPHAN_8;
  }

  /** Process 3 is about to remove its record. */
  const ORPHAN_9 := State(
    Some(Owner(3, 15)),
    map[0 := Owner(2, 11), 15 := Owner(1, 18)],
    map[0 := Call(0, Work), 2 := Call(1, SecondRead(15, 18)), 6 := Call(2, ClaimRelease(0, 11)), 15 := Call(3, Remove)],
    {0},
    21,
    History(map[11 := 6, 18 := 2], Some(6), {0}, false, false, false, false))

  lemma Orphan9() returns (actions: seq<Action>)
    ensures Run(INIT, actions) == ORPHAN_9
  {
    var s := ORPHAN_8;
    actions := Orphan8();
    actions, s := Leave(actions, s, 15);
    assert s == ORPHAN_9;
  }

  /** Process 3 released its record. */
  const ORPHAN_10 := State(
    None,
    map[0 := Owner(2, 11), 15 := Owner(1, 18)],
    map[0 := Call(0, Work), 2 := Call(1, SecondRead(15, 18)), 6 := Call(2, ClaimRelease(0, 11)), 15 := Call(3, Exited)],
    {0},
    22,
    History(map[11 := 6, 18 := 2], Some(6), {0}, false, false, false, false))

  lemma Orphan10() returns (actions: seq<Action>)
    ensures Run(INIT, actions) == ORPHAN_10
  {
    var s := ORPHAN_9;
    actions := Orphan9();
    actions, s := Extend(actions, s, Step(15));
    assert s == ORPHAN_10;
  }

  /** Process 4 works. */
  const ORPHAN_11 := State(
    Some(Owner(4, 22)),
    map[0 := Owner(2, 11), 15 := Owner(1, 18)],
    map[0 := Call(0, Work),
        2 := Call(1, SecondRead(15, 18)),
        6 := Call(2, ClaimRelease(0, 11)),
        15 := Call(3, Exited),
        22 := Call(4, Work)],
    {0},
    24,
    History(map[11 := 6, 18 := 2], Some(6), {0}, false, false, false, false))

  lemma Orphan11() returns (actions: seq<Action>)
    ensures Run(INIT, actions) == ORPHAN_11
  {
    var s := ORPHAN_10;
    actions := Orphan10();
    actions, s := Extend(actions, s, Start(4));
    actions, s := Extend(actions, s, Step(22));
    assert s == ORPHAN_11;
  }

  /** Process 4 died with its record in place, and process 1 has read that one under its claim. */
  const ORPHAN_12 := State(
    Some(Owner(4, 22)),
    map[0 := Owner(2, 11), 15 := Owner(1, 18)],
    map[0 := Call(0, Work),
        2 := Call(1, SecondProbe(15, 18, Owner(4, 22))),
        6 := Call(2, ClaimRelease(0, 11)),
        15 := Call(3, Exited),
        22 := Call(4, Work)],
    {0, 4},
    25,
    History(map[11 := 6, 18 := 2], Some(6), {0, 22}, false, false, false, false))

  lemma Orphan12() returns (actions: seq<Action>)
    ensures Run(INIT, actions) == ORPHAN_12
  {
    var s := ORPHAN_11;
    actions := Orphan11();
    actions, s := Extend(actions, s, Die(4));
    actions, s := Move(actions, s, 2, SecondProbe(15, 18, Owner(4, 22)));
    assert s == ORPHAN_12;
  }

  /** Process 1 is about to rename, under the claim it named for the record of process 3. */
  const ORPHAN_13 := State(
    Some(Owner(4, 22)),
    map[0 := Owner(2, 11), 15 := Owner(1, 18)],
    map[0 := Call(0, Work),
        2 := Call(1, Rename(15, 18, Owner(4, 22))),
        6 := Call(2, ClaimRelease(0, 11)),
        15 := Call(3, Exited),
        22 := Call(4, Work)],
    {0, 4},
    26,
    History(map[11 := 6, 18 := 2], Some(2), {0, 22}, false, false, true, true))

  lemma Orphan13() returns (actions: seq<Action>)
    ensures Run(INIT, actions) == ORPHAN_13
  {
    var s;
    actions := Orphan12();
    actions, s := Extend(actions, ORPHAN_12, Step(2));
    assert s == ORPHAN_13;
  }

  /** A run that puts two processes inside the work although only two processes ever died with
      their records in place and no probe was late: the claim is named for a record that was
      released meanwhile, what is judged under it is the second dead record, and another
      process takes that one over first. */
  lemma TwoOrphansBreak() returns (actions: seq<Action>)
    ensures var s := Run(INIT, actions);
      Violated(s) && |s.history.orphaned| == 2 && !s.history.lateFirst && !s.history.lateSecond
  {
    actions := Orphan13();
    var takeover := StaleLockIsReaped(ORPHAN_13, 5);
    assert Around(ORPHAN_13, takeover, 2) && NoneLate(ORPHAN_13, takeover);
    var s := Run(ORPHAN_13, takeover);
    var more := LateRenameBreaks(s, 2);
    RunConcat(INIT, actions, takeover);
    RunConcat(INIT, actions + takeover, more);
    assert s.history.orphaned == {0, 22};
    actions := actions + takeover + more;
  }
}
