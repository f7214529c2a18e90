/** Matching a provider's player name with roster candidates by Jaro-Winkler similarity.
    Characters are code units of the normalized name; scores are reals. */
module JaroWinkler {
  import opened Reals
  import opened Wrappers
  import opened Sorting

  function Max(a: int, b: int): int {
    if a < b then b else a
  }

  function Min(a: int, b: int): int {
    if a < b then a else b
  }

  // ---------------------------------------------------------------- marking common characters

  function Distance(left: Text, right: Text): nat {
    Max(0, Max(|left|, |right|) / 2 - 1)
  }

  /** The first position in a window that is not marked yet and holds the character, or its end. */
  function FirstFree(c: nat, right: Text, marked: seq<bool>, from: nat, end: nat): (k: nat)
    requires end <= |right| == |marked|
    ensures k < end ==> from <= k && !marked[k] && right[k] == c
    decreases end - from
  {
    if from >= end then end
    else if !marked[from] && right[from] == c then from
    else FirstFree(c, right, marked, from + 1, end)
  }

  datatype Marks = Marks(left: seq<bool>, right: seq<bool>, matches: nat)

  function WindowStart(left: Text, right: Text, i: nat): nat {
    Max(0, i - Distance(left, right))
  }

  function WindowEnd(left: Text, right: Text, i: nat): nat {
    Min(i + Distance(left, right) + 1, |right|)
  }

  /** The marks after the first `n` characters of the left name have looked for a partner. */
  function Marked(left: Text, right: Text, n: nat): (m: Marks)
    requires n <= |left|
    ensures |m.left| == |left| && |m.right| == |right|
    ensures forall i :: n <= i < |left| ==> !m.left[i]
  {
    if n == 0 then Marks(seq(|left|, _ => false), seq(|right|, _ => false), 0)
    else
      var m := Marked(left, right, n - 1);
      var end := WindowEnd(left, right, n - 1);
      var j := FirstFree(left[n - 1], right, m.right, WindowStart(left, right, n - 1), end);
      if j < end then Marks(m.left[n - 1 := true], m.right[j := true], m.matches + 1) else m
  }

  /** The characters at the marked positions. */
  function Picked(s: Text, marks: seq<bool>): Text
    requires |s| == |marks|
  {
    if s == [] then [] else (if marks[0] then [s[0]] else []) + Picked(s[1..], marks[1..])
  }

  function Differences(a: Text, b: Text): (d: nat)
    requires |a| == |b|
    ensures d <= |a|
    ensures d == 0 <==> a == b
  {
    if a == [] then 0 else
      var d := Differences(a[1..], b[1..]);
      assert a == [a[0]] + a[1..] && b == [b[0]] + b[1..];
      (if a[0] != b[0] then 1 else 0) + d
  }

  function CommonPrefix(left: Text, right: Text, n: nat): (k: nat)
    requires n <= |left| && n <= |right|
    ensures k <= n
  {
    if n == 0 || CommonPrefix(left, right, n - 1) < n - 1 || left[n - 1] != right[n - 1]
    then if n == 0 then 0 else CommonPrefix(left, right, n - 1)
    else n
  }

  // ---------------------------------------------------------------- what marking keeps

  lemma {:induction false} NothingPicked(s: Text)
    ensures Picked(s, seq(|s|, _ => false)) == []
  {
    if s != [] {
      assert seq(|s|, _ => false)[1..] == seq(|s| - 1, _ => false);
      NothingPicked(s[1..]);
    }
  }

  lemma {:induction false} PickedMore(s: Text, marks: seq<bool>, j: nat)
    requires |s| == |marks| && j < |s| && !marks[j]
    ensures multiset(Picked(s, marks[j := true])) == multiset(Picked(s, marks)) + multiset{s[j]}
  {
    if j == 0 {
      assert marks[0 := true][1..] == marks[1..];
    } else {
      PickedMore(s[1..], marks[1..], j - 1);
      assert marks[j := true][1..] == marks[1..][j - 1 := true];
    }
  }

  /** The marks pick the same characters on both sides, equally many. */
  ghost predicate SamePicked(left: Text, right: Text, m: Marks)
    requires |left| == |m.left| && |right| == |m.right|
  {
    && multiset(Picked(left, m.left)) == multiset(Picked(right, m.right))
    && |Picked(left, m.left)| == |Picked(right, m.right)| == m.matches
  }

  lemma OneMorePair(left: Text, right: Text, m: Marks, i: nat, j: nat)
    requires |left| == |m.left| && |right| == |m.right| && SamePicked(left, right, m)
    requires i < |left| && j < |right| && left[i] == right[j] && !m.left[i] && !m.right[j]
    ensures SamePicked(left, right, Marks(m.left[i := true], m.right[j := true], m.matches + 1))
  {
    PickedMore(left, m.left, i);
    PickedMore(right, m.right, j);
    SizeOne(Picked(left, m.left), Picked(left, m.left[i := true]), left[i]);
    SizeOne(Picked(right, m.right), Picked(right, m.right[j := true]), right[j]);
  }

  lemma {:induction false} SameCharactersMarked(left: Text, right: Text, n: nat)
    requires n <= |left|
    ensures SamePicked(left, right, Marked(left, right, n))
  {
    if n == 0 {
      NothingPicked(left);
      NothingPicked(right);
    } else {
      SameCharactersMarked(left, right, n - 1);
      var m := Marked(left, right, n - 1);
      var end := WindowEnd(left, right, n - 1);
      var j := FirstFree(left[n - 1], right, m.right, WindowStart(left, right, n - 1), end);
      if j < end {
        OneMorePair(left, right, m, n - 1, j);
      }
    }
  }

  lemma SizeOne(a: Text, b: Text, c: nat)
    requires multiset(b) == multiset(a) + multiset{c}
    ensures |b| == |a| + 1
  {
    assert |multiset(b)| == |multiset(a)| + 1;
  }

  lemma {:induction false} PickedBound(s: Text, marks: seq<bool>)
    requires |s| == |marks|
    ensures |Picked(s, marks)| <= |s|
    ensures |Picked(s, marks)| == |s| ==> Picked(s, marks) == s
  {
    if s != [] {
      PickedBound(s[1..], marks[1..]);
      assert s == [s[0]] + s[1..];
    }
  }

  // ---------------------------------------------------------------- the similarity

  /** The Jaro score of names of these lengths with so many marks, d of them out of order. */
  function JaroOf(matches: nat, left: nat, right: nat, differences: nat): real
    requires matches > 0 && left > 0 && right > 0
  {
    var transpositions := differences as real / 2.0;
    (matches as real / left as real + matches as real / right as real
     + (matches as real - transpositions) / matches as real) / 3.0
  }

  function Jaro(left: Text, right: Text): real
    requires left != [] && right != [] && Marked(left, right, |left|).matches > 0
  {
    var m := Marked(left, right, |left|);
    SameCharactersMarked(left, right, |left|);
    JaroOf(m.matches, |left|, |right|, Differences(Picked(left, m.left), Picked(right, m.right)))
  }

  function Prefix(left: Text, right: Text): (k: nat)
    ensures k <= 4
  {
    CommonPrefix(left, right, Min(4, Min(|left|, |right|)))
  }

  /** The share of the remaining distance that a common prefix makes up for. */
  function Boosted(jaro: real, prefix: nat): real {
    jaro + Part(prefix as real * 0.1, 1.0 - jaro)
  }

  function Part(weight: real, gap: real): real {
    weight * gap
  }

  function Similarity(left: Text, right: Text): real {
    if left == right then 1.0
    else if left == [] || right == [] || Marked(left, right, |left|).matches == 0 then 0.0
    else Boosted(Jaro(left, right), Prefix(left, right))
  }

  lemma Fraction(a: real, n: real)
    requires 0.0 <= a <= n && n > 0.0
    ensures 0.0 <= a / n <= 1.0
    ensures a / n == 1.0 <==> a == n
  {
    Undivided(a, n);
    BetweenFactors(a / n, a, n);
  }

  lemma BetweenFactors(q: real, a: real, n: real)
    requires n > 0.0 && q * n == a && 0.0 <= a <= n
    ensures 0.0 <= q <= 1.0
    ensures q == 1.0 <==> a == n
  {
    NotBelow(q, a, n);
    Remainder(q, a, n);
    NotBelow(1.0 - q, n - a, n);
  }

  lemma Remainder(q: real, a: real, n: real)
    requires q * n == a
    ensures (1.0 - q) * n == n - a
  {
  }

  lemma NotBelow(q: real, a: real, n: real)
    requires n > 0.0 && q * n == a && a >= 0.0
    ensures q >= 0.0
    ensures q == 0.0 <==> a == 0.0
  {
  }

  lemma MeanOfThree(x: real, y: real, z: real)
    requires 0.0 <= x <= 1.0 && 0.0 <= y <= 1.0 && 0.0 <= z <= 1.0
    ensures 0.0 <= (x + y + z) / 3.0 <= 1.0
    ensures (x + y + z) / 3.0 == 1.0 <==> x == y == z == 1.0
  {
  }

  lemma JaroInside(matches: nat, left: nat, right: nat, differences: nat)
    requires 0 < matches <= left && matches <= right && differences <= matches
    ensures 0.0 <= JaroOf(matches, left, right, differences) <= 1.0
    ensures JaroOf(matches, left, right, differences) == 1.0 <==> matches == left == right && differences == 0
  {
    var m, ordered := matches as real, matches as real - differences as real / 2.0;
    Fraction(m, left as real);
    Fraction(m, right as real);
    Fraction(ordered, m);
    MeanOfThree(m / left as real, m / right as real, ordered / m);
  }

  lemma BoostInside(jaro: real, prefix: nat)
    requires 0.0 <= jaro < 1.0 && prefix <= 4
    ensures 0.0 <= Boosted(jaro, prefix) < 1.0
  {
    var w, gap := prefix as real * 0.1, 1.0 - jaro;
    assert w < 1.0;
    PartOfGap(w, gap);
    assert Boosted(jaro, prefix) == jaro + Part(w, gap);
  }

  /** A part of a gap is less than the gap. */
  lemma PartOfGap(w: real, gap: real)
    requires 0.0 <= w < 1.0 && gap > 0.0
    ensures 0.0 <= Part(w, gap) < gap
  {
    PositiveProduct(w, gap);
    PositiveProduct(1.0 - w, gap);
    SplitGap(w, gap);
  }

  lemma SplitGap(w: real, gap: real)
    ensures (1.0 - w) * gap == gap - w * gap
  {
  }

  lemma DifferentNames(left: Text, right: Text)
    requires left != right && left != [] && right != [] && Marked(left, right, |left|).matches > 0
    ensures 0.0 <= Jaro(left, right) < 1.0
  {
    var m := Marked(left, right, |left|);
    SameCharactersMarked(left, right, |left|);
    PickedBound(left, m.left);
    PickedBound(right, m.right);
    JaroInside(m.matches, |left|, |right|, Differences(Picked(left, m.left), Picked(right, m.right)));
  }

  /** The similarity lies between 0 and 1, and is 1 for equal names only. */
  lemma SimilarityInside(left: Text, right: Text)
    ensures 0.0 <= Similarity(left, right) <= 1.0
    ensures Similarity(left, right) == 1.0 <==> left == right
  {
    if left != right && left != [] && right != [] && Marked(left, right, |left|).matches > 0 {
      DifferentNames(left, right);
      BoostInside(Jaro(left, right), Prefix(left, right));
    }
  }

  // ---------------------------------------------------------------- what is marked, said of positions

  /** The positions are no further apart than the shorter half of the longer name less one. */
  predicate Near(left: Text, right: Text, i: nat, j: nat) {
    i == j || (2 * (i - j + 1) <= Max(|left|, |right|) && 2 * (j - i + 1) <= Max(|left|, |right|))
  }

  /** The character at `j` is there to be taken by the one at `i`. */
  ghost predicate CanTake(left: Text, right: Text, partners: seq<Option<nat>>, i: nat, j: nat)
    requires i < |left| && i <= |partners|
  {
    && j < |right| && right[j] == left[i] && Near(left, right, i, j)
    && forall k :: 0 <= k < i ==> partners[k] != Some(j)
  }

  /** Each character in turn takes the first one that is there to be taken, if there is one. */
  ghost predicate Greedy(left: Text, right: Text, partners: seq<Option<nat>>)
    requires |partners| <= |left|
  {
    forall i :: 0 <= i < |partners| ==> Chooses(left, right, partners, i, partners[i])
  }

  ghost predicate Chooses(left: Text, right: Text, partners: seq<Option<nat>>, i: nat, choice: Option<nat>)
    requires i < |left| && i <= |partners|
  {
    match choice
    case Some(j) => CanTake(left, right, partners, i, j) && forall k: nat :: k < j ==>
        !CanTake(left, right, partners, i, k)
    case None => forall k: nat :: !CanTake(left, right, partners, i, k)
  }

  /** The marks are exactly those of the characters that have a partner and of their partners. */
  ghost predicate MarksOf(m: Marks, partners: seq<Option<nat>>) {
    && |partners| <= |m.left|
    && (forall i :: 0 <= i < |m.left| ==> (m.left[i] <==> i < |partners| && partners[i].Some?))
    && (forall j :: 0 <= j < |m.right| ==> (m.right[j] <==> exists i :: 0 <= i < |partners| && partners[i] == Some(j)))
  }

  /** The window of a position is what is near it. */
  lemma WindowIsNear(left: Text, right: Text, i: nat, j: nat)
    requires i < |left| && j < |right|
    ensures WindowStart(left, right, i) <= j < WindowEnd(left, right, i) <==> Near(left, right, i, j)
  {
    var longer := Max(|left|, |right|);
    assert Distance(left, right) == if longer < 2 then 0 else longer / 2 - 1;
  }

  lemma {:induction false} FirstFreeIsFirst(c: nat, right: Text, marked: seq<bool>, from: nat, end: nat)
    requires end <= |right| == |marked|
    ensures var k := FirstFree(c, right, marked, from, end);
      && k <= end
      && forall j :: from <= j < end && !marked[j] && right[j] == c ==> k <= j
    decreases end - from
  {
    if from < end {
      FirstFreeIsFirst(c, right, marked, from + 1, end);
    }
  }

  lemma NextChoice(left: Text, right: Text, m: Marks, partners: seq<Option<nat>>) returns (choice: Option<nat>)
    requires |partners| < |left| && |m.left| == |left| && |m.right| == |right| && MarksOf(m, partners)
    ensures Chooses(left, right, partners, |partners|, choice)
    ensures var i := |partners|;
      var end := WindowEnd(left, right, i);
      var j := FirstFree(left[i], right, m.right, WindowStart(left, right, i), end);
      choice == if j < end then Some(j) else None
  {
    var i := |partners|;
    var start, end := WindowStart(left, right, i), WindowEnd(left, right, i);
    var j := FirstFree(left[i], right, m.right, start, end);
    FirstFreeIsFirst(left[i], right, m.right, start, end);
    choice := if j < end then Some(j) else None;
    forall k: nat | k < |right|
      ensures CanTake(left, right, partners, i, k) <==> start <= k < end && !m.right[k] && right[k] == left[i]
    {
      WindowIsNear(left, right, i, k);
    }
  }

  lemma MarksGrow(m: Marks, partners: seq<Option<nat>>, choice: Option<nat>)
    requires |partners| < |m.left| && MarksOf(m, partners)
    requires choice.Some? ==> choice.value < |m.right|
    ensures choice.None? ==> MarksOf(m, partners + [choice])
    ensures choice.Some? ==>
      MarksOf(Marks(m.left[|partners| := true], m.right[choice.value := true], m.matches + 1), partners + [choice])
  {
    var more := partners + [choice];
    assert forall i :: 0 <= i < |partners| ==> more[i] == partners[i];
    assert more[|partners|] == choice;
    if choice.None? {
      forall j | 0 <= j < |m.right|
        ensures m.right[j] <==> exists i :: 0 <= i < |more| && more[i] == Some(j)
      {
        if i :| 0 <= i < |partners| && partners[i] == Some(j) {
          assert more[i] == Some(j);
        }
      }
    } else {
      var right := m.right[choice.value := true];
      forall j | 0 <= j < |right|
        ensures right[j] <==> exists i :: 0 <= i < |more| && more[i] == Some(j)
      {
        if i :| 0 <= i < |partners| && partners[i] == Some(j) {
          assert more[i] == Some(j);
        }
      }
    }
  }

  lemma MarkOneMore(left: Text, right: Text, n: nat, before: seq<Option<nat>>) returns (choice: Option<nat>)
    requires 0 < n <= |left| && |before| == n - 1 && MarksOf(Marked(left, right, n - 1), before)
    ensures Chooses(left, right, before, n - 1, choice)
    ensures MarksOf(Marked(left, right, n), before + [choice])
  {
    var m := Marked(left, right, n - 1);
    choice := NextChoice(left, right, m, before);
    MarksGrow(m, before, choice);
  }

  /** Marking is greedy: the marks are those of the partners that each left character finds in
      turn, the nearest to the front among the equal ones near it that are not taken. */
  lemma {:induction false} MarkedIsGreedy(left: Text, right: Text, n: nat) returns (partners: seq<Option<nat>>)
    requires n <= |left|
    ensures |partners| == n && Greedy(left, right, partners) && MarksOf(Marked(left, right, n), partners)
  {
    if n == 0 {
      partners := [];
    } else {
      var before := MarkedIsGreedy(left, right, n - 1);
      var choice := MarkOneMore(left, right, n, before);
      GreedyGrows(left, right, before, choice);
      partners := before + [choice];
    }
  }

  lemma GreedyGrows(left: Text, right: Text, before: seq<Option<nat>>, choice: Option<nat>)
    requires |before| < |left| && Greedy(left, right, before) && Chooses(left, right, before, |before|, choice)
    ensures Greedy(left, right, before + [choice])
  {
    var partners := before + [choice];
    forall i | 0 <= i < |partners|
      ensures Chooses(left, right, partners, i, partners[i])
    {
      SameChoice(left, right, before, partners, i, partners[i]);
    }
  }

  lemma SameChoice(left: Text, right: Text, before: seq<Option<nat>>, partners: seq<Option<nat>>, i: nat,
      choice: Option<nat>)
    requires i < |left| && i <= |before| && before <= partners
    requires Chooses(left, right, before, i, choice)
    ensures Chooses(left, right, partners, i, choice)
  {
    forall k: nat
      ensures CanTake(left, right, before, i, k) <==> CanTake(left, right, partners, i, k)
    {
      assert forall h :: 0 <= h < i ==> before[h] == partners[h];
    }
  }

  // ---------------------------------------------------------------- what the score is made of

  /** These are the marked places, in order. */
  ghost predicate MarkedPlaces(marks: seq<bool>, places: seq<nat>) {
    && (forall i, j :: 0 <= i < j < |places| ==> places[i] < places[j])
    && (forall i :: 0 <= i < |places| ==> places[i] < |marks| && marks[places[i]])
    && (forall k: nat :: k < |marks| && marks[k] ==> k in places)
  }

  function Shifted(places: seq<nat>): (r: seq<nat>)
    ensures |r| == |places| && forall i :: 0 <= i < |r| ==> r[i] == places[i] + 1
  {
    seq(|places|, i requires 0 <= i < |places| => places[i] + 1)
  }

  lemma PlacesShift(marks: seq<bool>, rest: seq<nat>)
    requires marks != [] && MarkedPlaces(marks[1..], rest)
    ensures MarkedPlaces(marks, (if marks[0] then [0] else []) + Shifted(rest))
  {
    var first: seq<nat> := if marks[0] then [0] else [];
    var later := Shifted(rest);
    forall k: nat | k < |marks| && marks[k]
      ensures k in first + later
    {
      if k > 0 {
        PlaceShifts(marks, rest, k);
      }
    }
    forall i | 0 <= i < |rest|
      ensures 0 < later[i] < |marks| && marks[later[i]]
    {
      assert marks[1..][rest[i]];
    }
  }

  lemma PlaceShifts(marks: seq<bool>, rest: seq<nat>, k: nat)
    requires marks != [] && MarkedPlaces(marks[1..], rest) && 0 < k < |marks| && marks[k]
    ensures k in Shifted(rest)
  {
    assert marks[1..][k - 1];
    var i :| 0 <= i < |rest| && rest[i] == k - 1;
    assert Shifted(rest)[i] == k;
  }

  /** The marked characters, in the order of their positions. */
  lemma {:induction false} PickedInOrder(s: Text, marks: seq<bool>) returns (places: seq<nat>)
    requires |s| == |marks|
    ensures MarkedPlaces(marks, places)
    ensures |places| == |Picked(s, marks)|
    ensures forall i :: 0 <= i < |places| ==> Picked(s, marks)[i] == s[places[i]]
  {
    if s == [] {
      places := [];
    } else {
      var rest := PickedInOrder(s[1..], marks[1..]);
      PlacesShift(marks, rest);
      places := (if marks[0] then [0] else []) + Shifted(rest);
      assert Picked(s, marks) == (if marks[0] then [s[0]] else []) + Picked(s[1..], marks[1..]);
    }
  }

  /** The differences are the positions at which the two texts differ. */
  lemma {:induction false} DifferencesAre(a: Text, b: Text) returns (places: set<nat>)
    requires |a| == |b|
    ensures forall k: nat :: k in places <==> k < |a| && a[k] != b[k]
    ensures |places| == Differences(a, b)
  {
    if a == [] {
      places := {};
    } else {
      var n := |a| - 1;
      var before := DifferencesAre(a[..n], b[..n]);
      DifferencesSnoc(a, b);
      places := if a[n] != b[n] then before + {n} else before;
    }
  }

  lemma {:induction false} DifferencesSnoc(a: Text, b: Text)
    requires |a| == |b| && a != []
    ensures var n := |a| - 1; Differences(a, b) == Differences(a[..n], b[..n]) + if a[n] != b[n] then 1 else 0
  {
    var n := |a| - 1;
    if n > 0 {
      DifferencesSnoc(a[1..], b[1..]);
      assert a[1..][..n - 1] == a[..n][1..] && b[1..][..n - 1] == b[..n][1..];
    }
  }

  /** The common prefix that counts: up to four characters, and no longer one is common. */
  lemma PrefixIsCommon(left: Text, right: Text)
    ensures var k := Prefix(left, right);
      && k <= 4 && k <= |left| && k <= |right| && left[..k] == right[..k]
      && (k < 4 && k < |left| && k < |right| ==> left[k] != right[k])
  {
    CommonUpTo(left, right, Min(4, Min(|left|, |right|)));
  }

  lemma {:induction false} CommonUpTo(left: Text, right: Text, n: nat)
    requires n <= |left| && n <= |right|
    ensures var k := CommonPrefix(left, right, n); left[..k] == right[..k] && (k < n ==> left[k] != right[k])
  {
    if n > 0 {
      CommonUpTo(left, right, n - 1);
      if CommonPrefix(left, right, n) == n {
        assert left[..n] == left[..n - 1] + [left[n - 1]] && right[..n] == right[..n - 1] + [right[n - 1]];
      }
    }
  }

  /** The Jaro score is the mean of three shares: of either name that is marked, and of the marked
      characters that are in order, two of them out of order making one transposition. */
  lemma JaroIsMean(matches: nat, left: nat, right: nat, differences: nat, x: real, y: real, z: real)
    requires matches > 0 && left > 0 && right > 0
    requires x * left as real == matches as real && y * right as real == matches as real
    requires 2.0 * (z * matches as real) == (2 * matches - differences) as real
    ensures 3.0 * JaroOf(matches, left, right, differences) == x + y + z
  {
    OnlyQuotient(x, matches as real, left as real);
    OnlyQuotient(y, matches as real, right as real);
    OnlyQuotient(z, matches as real - differences as real / 2.0, matches as real);
  }

  lemma OnlyQuotient(q: real, a: real, n: real)
    requires n > 0.0 && q * n == a
    ensures q == a / n
  {
    Undivided(a, n);
    assert (q - a / n) * n == 0.0;
    ZeroFactor(q - a / n, n);
  }

  /** What is missing from 1 shrinks by a tenth for each character of the prefix. */
  ghost predicate GapShrinks(score: real, jaro: real, prefix: nat) {
    1.0 - score == (1.0 - prefix as real / 10.0) * (1.0 - jaro)
  }

  lemma BoostShrinksGap(jaro: real, prefix: nat)
    ensures GapShrinks(Boosted(jaro, prefix), jaro, prefix)
  {
    SplitGap(prefix as real * 0.1, 1.0 - jaro);
  }

  /** The three shares for so many matches and differences in names of these lengths. */
  ghost predicate Shares(matches: nat, left: nat, right: nat, differences: nat, x: real, y: real, z: real) {
    && x * left as real == matches as real && y * right as real == matches as real
    && 2.0 * (z * matches as real) == (2 * matches - differences) as real
  }

  lemma TheShares(matches: nat, left: nat, right: nat, differences: nat) returns (x: real, y: real, z: real)
    requires matches > 0 && left > 0 && right > 0
    ensures Shares(matches, left, right, differences, x, y, z)
    ensures JaroOf(matches, left, right, differences) == (x + y + z) / 3.0
  {
    var m, ordered := matches as real, matches as real - differences as real / 2.0;
    x, y, z := m / left as real, m / right as real, ordered / m;
    Undivided(m, left as real);
    Undivided(m, right as real);
    Undivided(ordered, m);
    JaroIsMean(matches, left, right, differences, x, y, z);
  }

  lemma SimilarityUnfolds(left: Text, right: Text, differences: nat)
    requires left != right && left != [] && right != []
    requires var m := Marked(left, right, |left|);
      m.matches > 0 && |Picked(left, m.left)| == |Picked(right, m.right)|
      && differences == Differences(Picked(left, m.left), Picked(right, m.right))
    ensures Similarity(left, right) ==
      Boosted(JaroOf(Marked(left, right, |left|).matches, |left|, |right|, differences), Prefix(left, right))
  {
    SameCharactersMarked(left, right, |left|);
  }

  /** The similarity of different names: nought without a match, and otherwise what the shares of
      the greedily marked characters make it, with the gap to 1 shrunk by the common prefix. */
  lemma SimilarityIs(left: Text, right: Text, matches: nat) returns (differences: nat, x: real, y: real, z: real)
    requires left != right && left != [] && right != [] && matches == Marked(left, right, |left|).matches
    ensures var m := Marked(left, right, |left|);
      |Picked(left, m.left)| == |Picked(right, m.right)| == matches
      && differences == Differences(Picked(left, m.left), Picked(right, m.right))
    ensures matches == 0 ==> Similarity(left, right) == 0.0
    ensures matches > 0 ==>
      && Shares(matches, |left|, |right|, differences, x, y, z)
      && GapShrinks(Similarity(left, right), (x + y + z) / 3.0, Prefix(left, right))
  {
    var m := Marked(left, right, |left|);
    SameCharactersMarked(left, right, |left|);
    differences := Differences(Picked(left, m.left), Picked(right, m.right));
    x, y, z := 0.0, 0.0, 0.0;
    if matches > 0 {
      SimilarityUnfolds(left, right, differences);
      x, y, z := TheShares(matches, |left|, |right|, differences);
      BoostShrinksGap((x + y + z) / 3.0, Prefix(left, right));
    }
  }

  // ---------------------------------------------------------------- the algorithm

  lemma FirstFreeIs(c: nat, right: Text, marked: seq<bool>, from: nat, k: nat, end: nat)
    requires from <= k <= end <= |right| == |marked|
    requires forall j :: from <= j < k ==> marked[j] || right[j] != c
    ensures FirstFree(c, right, marked, from, end) == FirstFree(c, right, marked, k, end)
    decreases k - from
  {
    if from < k {
      FirstFreeIs(c, right, marked, from + 1, k, end);
    }
  }

  /** Marks both names in place: every left character takes the first free equal one in its window. */
  lemma MarkedNext(left: Text, right: Text, i: nat, k: nat)
    requires i < |left|
    requires var start, end := WindowStart(left, right, i), WindowEnd(left, right, i);
      if start <= end then k == FirstFree(left[i], right, Marked(left, right, i).right, start, end) else k == start
    ensures Marked(left, right, i + 1) ==
      var m := Marked(left, right, i);
      if k < WindowEnd(left, right, i) then Marks(m.left[i := true], m.right[k := true], m.matches + 1) else m
  {
  }

  /** One round of the outer loop: the first free match in the window of `left[i]` is marked. */
  method MarkOne(left: Text, right: Text, i: nat, leftMatches: array<bool>, rightMatches: array<bool>, count: nat)
    returns (matches: nat)
    requires leftMatches.Length == |left| && rightMatches.Length == |right| && leftMatches != rightMatches
    requires i < |left| && Marks(leftMatches[..], rightMatches[..], count) == Marked(left, right, i)
    modifies leftMatches, rightMatches
    ensures Marks(leftMatches[..], rightMatches[..], matches) == Marked(left, right, i + 1)
  {
    var start, end := WindowStart(left, right, i), WindowEnd(left, right, i);
    ghost var before := Marked(left, right, i);
    matches := count;
    var k := start;
    while k < end
      invariant start <= k && (start <= end ==> k <= end) && (start > end ==> k == start)
      invariant matches == count && leftMatches[..] == before.left && rightMatches[..] == before.right
      invariant forall j :: start <= j < k && j < end ==> before.right[j] || right[j] != left[i]
    {
      if rightMatches[k] || left[i] != right[k] {
        k := k + 1;
        continue;
      }
      leftMatches[i] := true;
      rightMatches[k] := true;
      matches := matches + 1;
      break;
    }
    if start <= end {
      FirstFreeIs(left[i], right, before.right, start, k, end);
    }
    MarkedNext(left, right, i, k);
  }

  method MarkMatches(left: Text, right: Text, leftMatches: array<bool>, rightMatches: array<bool>)
      returns (matches: nat)
    requires leftMatches.Length == |left| && rightMatches.Length == |right| && leftMatches != rightMatches
    requires leftMatches[..] == seq(|left|, _ => false) && rightMatches[..] == seq(|right|, _ => false)
    modifies leftMatches, rightMatches
    ensures Marks(leftMatches[..], rightMatches[..], matches) == Marked(left, right, |left|)
  {
    matches := 0;
    for i := 0 to |left|
      invariant Marks(leftMatches[..], rightMatches[..], matches) == Marked(left, right, i)
    {
      matches := MarkOne(left, right, i, leftMatches, rightMatches, matches);
    }
  }

  method PrefixLength(left: Text, right: Text) returns (prefixLength: nat)
    ensures prefixLength == Prefix(left, right)
  {
    var limit := Min(4, Min(|left|, |right|));
    prefixLength := 0;
    while prefixLength < limit && left[prefixLength] == right[prefixLength]
      invariant prefixLength <= limit
      invariant prefixLength == CommonPrefix(left, right, prefixLength)
    {
      prefixLength := prefixLength + 1;
    }
    PrefixStops(left, right, prefixLength, limit);
  }

  method JaroWinklerScore(left: Text, right: Text) returns (score: real)
    ensures score == Similarity(left, right)
  {
    if left == right {
      return 1.0;
    }
    if |left| == 0 || |right| == 0 {
      return 0.0;
    }
    var leftMatches := new bool[|left|](_ => false);
    var rightMatches := new bool[|right|](_ => false);
    assert leftMatches[..] == seq(|left|, _ => false) && rightMatches[..] == seq(|right|, _ => false);
    var matches := MarkMatches(left, right, leftMatches, rightMatches);
    if matches == 0 {
      return 0.0;
    }
    SameCharactersMarked(left, right, |left|);
    var differences := Differences(Picked(left, leftMatches[..]), Picked(right, rightMatches[..]));
    var jaro := JaroOf(matches, |left|, |right|, differences);
    var prefixLength := PrefixLength(left, right);
    return Boosted(jaro, prefixLength);
  }

  lemma PrefixStops(left: Text, right: Text, k: nat, limit: nat)
    requires k <= limit <= |left| && limit <= |right| && k == CommonPrefix(left, right, k)
    requires k < limit ==> left[k] != right[k]
    ensures CommonPrefix(left, right, limit) == k
    decreases limit
  {
    if k < limit {
      PrefixHolds(left, right, k, limit);
    }
  }

  lemma {:induction false} PrefixHolds(left: Text, right: Text, k: nat, n: nat)
    requires k < n <= |left| && n <= |right| && k == CommonPrefix(left, right, k) && left[k] != right[k]
    ensures CommonPrefix(left, right, n) == k
  {
    if n > k + 1 {
      PrefixHolds(left, right, k, n - 1);
    }
  }
}
