/** The consensus probability at a line: each book's margin removed, then the median over books.
    Prices and probabilities are reals; a missing price stands for one that is not a number. */
module Consensus {
  import opened Reals
  import opened Wrappers
  import opened Sorting

  // ---------------------------------------------------------------- one book

  datatype Devigged = Devigged(over: real, under: real)

  function DevigTwoWay(overPrice: real, underPrice: real): Devigged
    requires overPrice > 0.0 && underPrice > 0.0
  {
    var rawOver, rawUnder := 1.0 / overPrice, 1.0 / underPrice;
    Positive(overPrice);
    Positive(underPrice);
    Devigged(rawOver / (rawOver + rawUnder), rawUnder / (rawOver + rawUnder))
  }

  lemma Positive(price: real)
    requires price > 0.0
    ensures 1.0 / price > 0.0
  {
  }

  lemma ShareOf(a: real, b: real, s: real)
    requires a > 0.0 && b > 0.0 && s == a + b
    ensures 0.0 < a / s
    ensures a / s + b / s == 1.0
  {
    Undivided(a, s);
    Undivided(b, s);
    Whole(a / s, b / s, a, b, s);
    PositiveFactor(a / s, s);
  }

  lemma Whole(x: real, y: real, a: real, b: real, s: real)
    requires s > 0.0 && x * s == a && y * s == b && a + b == s
    ensures x + y == 1.0
  {
    assert (x + y - 1.0) * s == 0.0;
    ZeroFactor(x + y - 1.0, s);
  }

  lemma PositiveFactor(x: real, s: real)
    requires s > 0.0 && x * s > 0.0
    ensures x > 0.0
  {
  }

  /** Removing the margin leaves two probabilities that make a whole; swapping the prices swaps
      them. */
  lemma DevigIsAProbability(overPrice: real, underPrice: real)
    requires overPrice > 0.0 && underPrice > 0.0
    ensures var d := DevigTwoWay(overPrice, underPrice);
      && 0.0 < d.over < 1.0 && 0.0 < d.under < 1.0 && d.over + d.under == 1.0
      && DevigTwoWay(underPrice, overPrice) == Devigged(d.under, d.over)
  {
    Positive(overPrice);
    Positive(underPrice);
    var s := 1.0 / overPrice + 1.0 / underPrice;
    ShareOf(1.0 / overPrice, 1.0 / underPrice, s);
    ShareOf(1.0 / underPrice, 1.0 / overPrice, s);
  }

  /** Fair odds: what the two sides pay on average is the same. */
  lemma MarginRemoved(overPrice: real, underPrice: real)
    requires overPrice > 0.0 && underPrice > 0.0
    ensures var d := DevigTwoWay(overPrice, underPrice); d.over * overPrice == d.under * underPrice
  {
    Positive(overPrice);
    Positive(underPrice);
    ReciprocalShare(overPrice, 1.0 / overPrice, 1.0 / overPrice + 1.0 / underPrice);
    ReciprocalShare(underPrice, 1.0 / underPrice, 1.0 / overPrice + 1.0 / underPrice);
  }

  lemma ReciprocalShare(price: real, raw: real, sum: real)
    requires price > 0.0 && raw == 1.0 / price && sum > 0.0
    ensures (raw / sum) * price == 1.0 / sum
  {
    Undivided(1.0, price);
    Undivided(raw, sum);
    Undivided(1.0, sum);
    SameQuotient((raw / sum) * price, 1.0 / sum, sum, raw / sum, raw, price);
  }

  lemma SameQuotient(x: real, y: real, sum: real, share: real, raw: real, price: real)
    requires sum > 0.0 && x == share * price && share * sum == raw && raw * price == 1.0 && y * sum == 1.0
    ensures x == y
  {
    assert x * sum == (share * sum) * price;
    assert (x - y) * sum == 0.0;
    ZeroFactor(x - y, sum);
  }

  /** With the whole of 1 that fixes both probabilities. */
  lemma FairIsUnique(overPrice: real, underPrice: real, over: real, under: real)
    requires overPrice > 0.0 && underPrice > 0.0
    requires over + under == 1.0 && over * overPrice == under * underPrice
    ensures DevigTwoWay(overPrice, underPrice) == Devigged(over, under)
  {
    var d := DevigTwoWay(overPrice, underPrice);
    DevigIsAProbability(overPrice, underPrice);
    MarginRemoved(overPrice, underPrice);
    SameFairOdds(over, d.over, overPrice, underPrice);
  }

  lemma SameFairOdds(x: real, y: real, overPrice: real, underPrice: real)
    requires overPrice > 0.0 && underPrice > 0.0
    requires x * overPrice == (1.0 - x) * underPrice && y * overPrice == (1.0 - y) * underPrice
    ensures x == y
  {
    assert (x - y) * (overPrice + underPrice) == 0.0;
    ZeroFactor(x - y, overPrice + underPrice);
  }

  /** The side that pays less is the likelier one. */
  lemma CheaperIsLikelier(overPrice: real, underPrice: real)
    requires overPrice > 0.0 && underPrice > 0.0
    ensures var d := DevigTwoWay(overPrice, underPrice); d.over > 0.5 <==> overPrice < underPrice
  {
    var d := DevigTwoWay(overPrice, underPrice);
    DevigIsAProbability(overPrice, underPrice);
    MarginRemoved(overPrice, underPrice);
    LargerFactor(d.over, overPrice, d.under, underPrice);
  }

  lemma LargerFactor(a: real, x: real, b: real, y: real)
    requires a > 0.0 && b > 0.0 && x > 0.0 && y > 0.0 && a * x == b * y
    ensures a > b <==> x < y
  {
    if a > b && x >= y {
      BiggerProduct(a, b, x, y);
    }
    if x < y && b >= a {
      BiggerProduct(y, x, b, a);
    }
  }

  lemma BiggerProduct(a: real, b: real, x: real, y: real)
    requires a > b > 0.0 && x >= y > 0.0
    ensures a * x > b * y
  {
    MoreTimes(a, b, x);
    if x > y {
      MoreTimes(x, y, b);
    }
  }

  lemma MoreTimes(a: real, b: real, x: real)
    requires a > b && x > 0.0
    ensures a * x > b * x
  {
    PositiveProduct(a - b, x);
    assert (a - b) * x == a * x - b * x;
  }

  // ---------------------------------------------------------------- the median

  function RealLe(a: real, b: real): bool {
    a <= b
  }

  function Middle(sorted: seq<real>): real
    requires sorted != []
  {
    var midpoint := |sorted| / 2;
    if |sorted| % 2 == 1 then sorted[midpoint] else (sorted[midpoint - 1] + sorted[midpoint]) / 2.0
  }

  function Median(values: seq<real>): real
    requires values != []
  {
    SortKeeps(RealLe, values);
    Middle(SortBy(RealLe, values))
  }

  lemma RealSorts(values: seq<real>)
    ensures Sorted(RealLe, SortBy(RealLe, values)) && |SortBy(RealLe, values)| == |values|
    ensures multiset(SortBy(RealLe, values)) == multiset(values)
  {
    SortKeeps(RealLe, values);
    SortSorts(RealLe, values);
  }

  lemma MedianForgetsOrder(a: seq<real>, b: seq<real>)
    requires a != [] && multiset(a) == multiset(b)
    ensures b != [] && Median(a) == Median(b)
  {
    SameElements(a, b);
    SortForgetsOrder(RealLe, a, b);
  }

  /** How many values are at most `x`, and how many at least. */
  ghost function AtMost(values: seq<real>, x: real): nat {
    if values == [] then 0 else (if values[0] <= x then 1 else 0) + AtMost(values[1..], x)
  }

  ghost function AtLeast(values: seq<real>, x: real): nat {
    if values == [] then 0 else (if values[0] >= x then 1 else 0) + AtLeast(values[1..], x)
  }

  lemma {:induction false} CountsWithout(b: seq<real>, j: nat, x: real)
    requires j < |b|
    ensures AtMost(b, x) == AtMost(b[..j] + b[j + 1..], x) + if b[j] <= x then 1 else 0
    ensures AtLeast(b, x) == AtLeast(b[..j] + b[j + 1..], x) + if b[j] >= x then 1 else 0
  {
    if j == 0 {
      assert b[..0] + b[1..] == b[1..];
    } else {
      CountsWithout(b[1..], j - 1, x);
      assert b[1..][..j - 1] + b[1..][j..] == (b[..j] + b[j + 1..])[1..];
    }
  }

  lemma {:induction false} CountsForgetOrder(a: seq<real>, b: seq<real>, x: real)
    requires multiset(a) == multiset(b)
    ensures AtMost(a, x) == AtMost(b, x) && AtLeast(a, x) == AtLeast(b, x)
  {
    if a == [] {
      SameElements(a, b);
    } else {
      var j := Partner(a, b);
      CountsForgetOrder(a[1..], b[..j] + b[j + 1..], x);
      CountsWithout(b, j, x);
    }
  }

  /** In a sorted list the values up to a position decide how many are at most, or at least, x. */
  lemma {:induction false} CountsInOrder(s: seq<real>, k: nat, x: real)
    requires Sorted(RealLe, s) && k < |s|
    ensures s[k] > x <==> AtMost(s, x) <= k
    ensures s[k] < x <==> AtLeast(s, x) < |s| - k
    decreases s
  {
    if k == 0 {
      if s[0] > x {
        NoneAtMost(s, x);
      }
      AtLeastAll(s, x);
    } else {
      assert forall i :: 0 <= i < |s| - 1 ==> s[1..][i] == s[i + 1];
      CountsInOrder(s[1..], k - 1, x);
      assert RealLe(s[0], s[k]);
      if s[0] >= x {
        AtLeastAll(s, x);
      }
    }
  }

  lemma {:induction false} NoneAtMost(s: seq<real>, x: real)
    requires Sorted(RealLe, s) && (s != [] ==> s[0] > x)
    ensures AtMost(s, x) == 0
  {
    if s != [] {
      assert |s| > 1 ==> RealLe(s[0], s[1]);
      assert forall i :: 0 <= i < |s| - 1 ==> s[1..][i] == s[i + 1];
      NoneAtMost(s[1..], x);
    }
  }

  lemma {:induction false} AtLeastAll(s: seq<real>, x: real)
    requires Sorted(RealLe, s)
    ensures AtLeast(s, x) <= |s|
    ensures s != [] ==> (s[0] >= x <==> AtLeast(s, x) == |s|)
  {
    if s != [] {
      assert |s| > 1 ==> RealLe(s[0], s[1]);
      assert forall i :: 0 <= i < |s| - 1 ==> s[1..][i] == s[i + 1];
      AtLeastAll(s[1..], x);
    }
  }

  /** What makes two values the middle ones: so many are at most, and so many at least, each. */
  ghost predicate MiddleValues(values: seq<real>, low: real, high: real) {
    && AtMost(values, low) >= |values| - |values| / 2 && AtLeast(values, low) > |values| / 2
    && AtMost(values, high) > |values| / 2 && AtLeast(values, high) >= |values| - |values| / 2
  }

  /** How many values are at most, and at least, the one at a place of a sorted list. */
  lemma PlaceOf(s: seq<real>, k: nat)
    requires Sorted(RealLe, s) && k < |s|
    ensures AtMost(s, s[k]) > k && AtLeast(s, s[k]) >= |s| - k
  {
    CountsInOrder(s, k, s[k]);
  }

  lemma MiddleIsHalfway(s: seq<real>) returns (low: real, high: real)
    requires Sorted(RealLe, s) && s != []
    ensures low in s && high in s && low <= high && MiddleValues(s, low, high)
    ensures |s| % 2 == 1 ==> low == high
    ensures Middle(s) == (low + high) / 2.0
  {
    var i, j := (|s| - 1) / 2, |s| / 2;
    low, high := s[i], s[j];
    assert i < j ==> RealLe(low, high);
    PlaceOf(s, i);
    PlaceOf(s, j);
  }

  /** The median is halfway between the two middle values, which are two of the values, and the
      same one if their number is odd. */
  lemma MedianIsHalfway(values: seq<real>) returns (low: real, high: real)
    requires values != []
    ensures low in values && high in values && low <= high && MiddleValues(values, low, high)
    ensures |values| % 2 == 1 ==> low == high
    ensures Median(values) == (low + high) / 2.0
  {
    RealSorts(values);
    var s := SortBy(RealLe, values);
    SameElements(values, s);
    low, high := MiddleIsHalfway(s);
    CountsForgetOrder(values, s, low);
    CountsForgetOrder(values, s, high);
  }

  // ---------------------------------------------------------------- robustness

  ghost function Kept(mask: seq<bool>): nat {
    if mask == [] then 0 else (if mask[0] then 1 else 0) + Kept(mask[1..])
  }

  lemma {:induction false} KeptBound(values: seq<real>, mask: seq<bool>, lo: real, hi: real)
    requires |mask| == |values| && forall i :: 0 <= i < |values| && mask[i] ==> lo <= values[i] <= hi
    ensures Kept(mask) <= AtMost(values, hi) && Kept(mask) <= AtLeast(values, lo)
  {
    if values != [] {
      KeptBound(values[1..], mask[1..], lo, hi);
    }
  }

  lemma NoneKept(mask: seq<bool>)
    requires |mask| == 0
    ensures Kept(mask) == 0
  {
  }

  lemma MiddleBetween(s: seq<real>, lo: real, hi: real)
    requires s != [] && Sorted(RealLe, s) && AtMost(s, hi) > |s| / 2 && AtLeast(s, lo) > |s| / 2
    ensures lo <= Middle(s) <= hi
  {
    var low, high := (|s| - 1) / 2, |s| / 2;
    CountsInOrder(s, high, hi);
    CountsInOrder(s, low, lo);
    assert low < high ==> RealLe(s[low], s[high]);
  }

  /** A majority of values within bounds keeps the median within them, whatever the others are. */
  lemma MajorityHoldsMedian(values: seq<real>, mask: seq<bool>, lo: real, hi: real)
    requires |mask| == |values| && Kept(mask) > |values| / 2
    requires forall i :: 0 <= i < |values| && mask[i] ==> lo <= values[i] <= hi
    ensures values != [] && lo <= Median(values) <= hi
  {
    KeptBound(values, mask, lo, hi);
    RealSorts(values);
    if values == [] {
      NoneKept(mask);
    } else {
      CountsForgetOrder(values, SortBy(RealLe, values), hi);
      CountsForgetOrder(values, SortBy(RealLe, values), lo);
      MiddleBetween(SortBy(RealLe, values), lo, hi);
    }
  }

  ghost function Votes(n: nat, x: real): (votes: seq<real>)
    ensures |votes| == n && forall i :: 0 <= i < n ==> votes[i] == x
  {
    seq(n, _ => x)
  }

  lemma {:induction false} EqualVotes(votes: seq<real>, x: real, bound: real)
    requires forall i :: 0 <= i < |votes| ==> votes[i] == x
    ensures AtMost(votes, bound) == if x <= bound then |votes| else 0
  {
    if votes != [] {
      EqualVotes(votes[1..], x, bound);
    }
  }

  lemma {:induction false} AtMostConcat(a: seq<real>, b: seq<real>, x: real)
    ensures AtMost(a + b, x) == AtMost(a, x) + AtMost(b, x)
  {
    if a == [] {
      assert a + b == b;
    } else {
      AtMostConcat(a[1..], b, x);
      assert (a + b)[1..] == a[1..] + b;
    }
  }

  /** A median whose upper middle value exceeds x does so itself when no value is below x. */
  lemma MedianExceeds(values: seq<real>, x: real)
    requires values != [] && AtMost(values, x) <= |values| / 2
    requires forall i :: 0 <= i < |values| ==> values[i] >= x
    ensures Median(values) > x
  {
    RealSorts(values);
    var s := SortBy(RealLe, values);
    SameElements(values, s);
    CountsForgetOrder(values, s, x);
    CountsInOrder(s, |s| / 2, x);
    if |s| % 2 == 0 {
      assert s[|s| / 2 - 1] in s;
    }
  }

  /** One book more than that can carry the median off: of n equal votes x, it is enough to
      raise floor((n-1)/2) + 1 of them. */
  lemma BoundIsTight(n: nat, x: real, y: real)
    requires n > 0 && x < y
    ensures var raised := (n - 1) / 2 + 1;
      Median(Votes(raised, y) + Votes(n - raised, x)) > x
  {
    var raised := (n - 1) / 2 + 1;
    AtMostConcat(Votes(raised, y), Votes(n - raised, x), x);
    EqualVotes(Votes(raised, y), y, x);
    EqualVotes(Votes(n - raised, x), x, x);
    MedianExceeds(Votes(raised, y) + Votes(n - raised, x), x);
  }

  // ---------------------------------------------------------------- the consensus

  /** A bookmaker's pair of prices at a point; None stands for a price that is not a number. */
  datatype Line = Line(book: Text, over: Option<real>, under: Option<real>, point: real)

  datatype Result = Result(line: real, impliedOver: real, impliedUnder: real, books: nat)

  predicate Contributes(l: Line, target: real) {
    l.point == target && l.over.Some? && l.over.value > 1.0 && l.under.Some? && l.under.value > 1.0
  }

  function Probability(l: Line, target: real): real
    requires Contributes(l, target)
  {
    DevigTwoWay(l.over.value, l.under.value).over
  }

  function Probabilities(lines: seq<Line>, target: real): seq<real> {
    if lines == [] then []
    else if Contributes(lines[0], target) then [Probability(lines[0], target)] + Probabilities(lines[1..], target)
    else Probabilities(lines[1..], target)
  }

  /** None without a finite target or without a contributing book. */
  function ConsensusAtLine(lines: seq<Line>, target: Option<real>): Option<Result> {
    if target.None? then None
    else
      var probabilities := Probabilities(lines, target.value);
      if probabilities == [] then None
      else
        var over := Median(probabilities);
        Some(Result(target.value, over, 1.0 - over, |probabilities|))
  }

  lemma {:induction false} ProbabilitiesInside(lines: seq<Line>, target: real)
    ensures forall i :: 0 <= i < |Probabilities(lines, target)| ==> 0.0 < Probabilities(lines, target)[i] < 1.0
  {
    if lines != [] {
      ProbabilitiesInside(lines[1..], target);
      if Contributes(lines[0], target) {
        DevigIsAProbability(lines[0].over.value, lines[0].under.value);
      }
    }
  }

  lemma MedianInside(values: seq<real>, lo: real, hi: real)
    requires values != [] && forall i :: 0 <= i < |values| ==> lo < values[i] < hi
    ensures lo < Median(values) < hi
  {
    RealSorts(values);
    var s := SortBy(RealLe, values);
    SameElements(values, s);
    assert s[|s| / 2] in s;
    assert |s| % 2 == 0 ==> s[|s| / 2 - 1] in s;
  }

  /** The consensus is strictly between 0 and 1, and its two sides make a whole. */
  lemma ConsensusIsAProbability(lines: seq<Line>, target: Option<real>)
    requires ConsensusAtLine(lines, target).Some?
    ensures var r := ConsensusAtLine(lines, target).value;
      0.0 < r.impliedOver < 1.0 && 0.0 < r.impliedUnder < 1.0 && r.impliedOver + r.impliedUnder == 1.0
  {
    ProbabilitiesInside(lines, target.value);
    MedianInside(Probabilities(lines, target.value), 0.0, 1.0);
  }

  ghost function Part(l: Line, target: real): seq<real> {
    if Contributes(l, target) then [Probability(l, target)] else []
  }

  lemma ProbabilitiesCons(lines: seq<Line>, target: real)
    requires lines != []
    ensures multiset(Probabilities(lines, target))
         == multiset(Part(lines[0], target)) + multiset(Probabilities(lines[1..], target))
  {
    assert Probabilities(lines, target) == Part(lines[0], target) + Probabilities(lines[1..], target);
  }

  lemma {:induction false} ProbabilitiesWithout(lines: seq<Line>, j: nat, target: real)
    requires j < |lines|
    ensures multiset(Probabilities(lines, target))
         == multiset(Probabilities(lines[..j] + lines[j + 1..], target)) + multiset(Part(lines[j], target))
  {
    ProbabilitiesCons(lines, target);
    var less := lines[..j] + lines[j + 1..];
    if j == 0 {
      assert less == lines[1..];
    } else {
      WithoutLater(lines, j);
      ProbabilitiesWithout(lines[1..], j - 1, target);
      ProbabilitiesCons(less, target);
      Regrouped(multiset(Probabilities(lines, target)), multiset(Part(lines[0], target)),
          multiset(Probabilities(lines[1..], target)),
                multiset(Probabilities(less[1..], target)), multiset(Part(lines[j], target)));
    }
  }

  lemma {:induction false} ProbabilitiesForgetOrder(a: seq<Line>, b: seq<Line>, target: real)
    requires multiset(a) == multiset(b)
    ensures multiset(Probabilities(a, target)) == multiset(Probabilities(b, target))
  {
    if a == [] {
      SameElements(a, b);
    } else {
      var j := Partner(a, b);
      ProbabilitiesForgetOrder(a[1..], b[..j] + b[j + 1..], target);
      ProbabilitiesWithout(b, j, target);
      ProbabilitiesWithout(a, 0, target);
      assert a[..0] + a[1..] == a[1..];
    }
  }

  /** The order in which the books are listed does not matter. */
  lemma ConsensusForgetsOrder(a: seq<Line>, b: seq<Line>, target: Option<real>)
    requires multiset(a) == multiset(b)
    ensures ConsensusAtLine(a, target) == ConsensusAtLine(b, target)
  {
    if target.Some? {
      var p, q := Probabilities(a, target.value), Probabilities(b, target.value);
      ProbabilitiesForgetOrder(a, b, target.value);
      SameElements(p, q);
      if p != [] {
        MedianForgetsOrder(p, q);
      }
    }
  }

  /** The book offers both sides at the point, each at a price above 1. */
  lemma ContributesExactly(l: Line, target: real)
    ensures Contributes(l, target) <==>
      exists over, under :: l == Line(l.book, Some(over), Some(under), target) && over > 1.0 && under > 1.0
  {
    if Contributes(l, target) {
      assert l == Line(l.book, Some(l.over.value), Some(l.under.value), target);
    }
  }

  /** The fair probability of over at a book that contributes. */
  ghost predicate IsFair(l: Line, target: real, p: real) {
    Contributes(l, target) && 0.0 < p < 1.0 && p * l.over.value == (1.0 - p) * l.under.value
  }

  lemma ProbabilityIsFair(l: Line, target: real)
    requires Contributes(l, target)
    ensures IsFair(l, target, Probability(l, target))
  {
    DevigIsAProbability(l.over.value, l.under.value);
    MarginRemoved(l.over.value, l.under.value);
  }

  /** These are the contributing books, in order, with these fair probabilities. */
  ghost predicate FairBooks(lines: seq<Line>, target: real, books: seq<nat>, all: seq<real>) {
    && |books| == |all|
    && (forall i, j :: 0 <= i < j < |books| ==> books[i] < books[j])
    && (forall i :: 0 <= i < |books| ==> books[i] < |lines| && IsFair(lines[books[i]], target, all[i]))
    && (forall k: nat :: k < |lines| && Contributes(lines[k], target) ==> k in books)
  }

  lemma OneMoreBook(lines: seq<Line>, target: real, books: seq<nat>, all: seq<real>)
    requires lines != [] && FairBooks(lines[..|lines| - 1], target, books, all)
    ensures var n, l := |lines| - 1, lines[|lines| - 1];
      if Contributes(l, target) then FairBooks(lines, target, books + [n], all + [Probability(l, target)])
      else FairBooks(lines, target, books, all)
  {
    var n, l := |lines| - 1, lines[|lines| - 1];
    assert forall k :: 0 <= k < n ==> lines[..n][k] == lines[k];
    if Contributes(l, target) {
      ProbabilityIsFair(l, target);
      assert n in books + [n] && forall k :: k in books ==> k in books + [n];
    }
  }

  /** The probabilities are the fair ones of the contributing books, in their order. */
  lemma {:induction false} ProbabilitiesAreFair(lines: seq<Line>, target: real) returns (books: seq<nat>)
    ensures FairBooks(lines, target, books, Probabilities(lines, target))
  {
    if lines == [] {
      books := [];
    } else {
      var n := |lines| - 1;
      books := ProbabilitiesAreFair(lines[..n], target);
      OneMoreBook(lines, target, books, Probabilities(lines[..n], target));
      ProbabilitiesSnoc(lines, target);
      if Contributes(lines[n], target) {
        books := books + [n];
      }
    }
  }

  lemma {:induction false} ProbabilitiesSnoc(lines: seq<Line>, target: real)
    requires lines != []
    ensures Probabilities(lines, target) == Probabilities(lines[..|lines| - 1], target) + Part(lines[|lines| - 1],
        target)
  {
    var n := |lines| - 1;
    if n > 0 {
      ProbabilitiesSnoc(lines[1..], target);
      assert lines[1..][..n - 1] == lines[..n][1..];
    }
  }

  /** There is a consensus exactly if a book contributes; it names the line and their number, and
      is halfway between the two middle ones of their fair probabilities. */
  lemma ConsensusIsTheMedian(lines: seq<Line>, target: Option<real>)
    ensures ConsensusAtLine(lines, target).Some? <==>
      target.Some? && exists k :: 0 <= k < |lines| && Contributes(lines[k], target.value)
    ensures ConsensusAtLine(lines, target).Some? ==>
      var r, all := ConsensusAtLine(lines, target).value, Probabilities(lines, target.value);
      && r.line == target.value && r.books == |all|
      && exists low, high :: low in all && high in all && MiddleValues(all, low, high)
          && r.impliedOver == (low + high) / 2.0
  {
    if target.Some? {
      var all := Probabilities(lines, target.value);
      var books := ProbabilitiesAreFair(lines, target.value);
      if all != [] {
        assert Contributes(lines[books[0]], target.value);
        var low, high := MedianIsHalfway(all);
      }
      if k :| 0 <= k < |lines| && Contributes(lines[k], target.value) {
        assert k in books;
      }
    }
  }

  lemma FairFavourite(l: Line, target: real, p: real)
    requires IsFair(l, target, p) && l.over.value < l.under.value
    ensures p > 0.5
  {
    LargerFactor(p, l.over.value, 1.0 - p, l.under.value);
  }

  /** If every contributing book makes over the favourite, so does the consensus. */
  lemma FavouriteIsFavoured(lines: seq<Line>, target: Option<real>)
    requires ConsensusAtLine(lines, target).Some?
    requires forall k :: 0 <= k < |lines| && Contributes(lines[k], target.value) ==>
        lines[k].over.value < lines[k].under.value
    ensures ConsensusAtLine(lines, target).value.impliedOver > ConsensusAtLine(lines, target).value.impliedUnder
  {
    var all := Probabilities(lines, target.value);
    var books := ProbabilitiesAreFair(lines, target.value);
    forall i | 0 <= i < |all|
      ensures 0.5 < all[i] < 1.0
    {
      FairFavourite(lines[books[i]], target.value, all[i]);
    }
    MedianInside(all, 0.5, 1.0);
  }

  // ---------------------------------------------------------------- swapping the sides

  function Swapped(lines: seq<Line>): seq<Line> {
    if lines == [] then []
    else [Line(lines[0].book, lines[0].under, lines[0].over, lines[0].point)] + Swapped(lines[1..])
  }

  ghost function Complements(values: seq<real>): (r: seq<real>)
    ensures |r| == |values| && forall i :: 0 <= i < |r| ==> r[i] == 1.0 - values[i]
  {
    if values == [] then [] else [1.0 - values[0]] + Complements(values[1..])
  }

  lemma {:induction false} SwappedProbabilities(lines: seq<Line>, target: real)
    ensures Probabilities(Swapped(lines), target) == Complements(Probabilities(lines, target))
  {
    if lines != [] {
      SwappedProbabilities(lines[1..], target);
      if Contributes(lines[0], target) {
        DevigIsAProbability(lines[0].over.value, lines[0].under.value);
      }
    }
  }

  lemma {:induction false} ComplementAtMost(values: seq<real>, x: real)
    ensures AtMost(Complements(values), x) == AtLeast(values, 1.0 - x)
  {
    if values != [] {
      ComplementAtMost(values[1..], x);
    }
  }

  lemma OrderIn(values: seq<real>, k: nat, x: real)
    requires k < |values|
    ensures |SortBy(RealLe, values)| == |values|
    ensures SortBy(RealLe, values)[k] > x <==> AtMost(values, x) <= k
    ensures SortBy(RealLe, values)[k] < x <==> AtLeast(values, x) < |values| - k
  {
    RealSorts(values);
    CountsInOrder(SortBy(RealLe, values), k, x);
    CountsForgetOrder(values, SortBy(RealLe, values), x);
  }

  lemma ExceedsTogether(values: seq<real>, k: nat, x: real)
    requires k < |values|
    ensures |SortBy(RealLe, values)| == |SortBy(RealLe, Complements(values))| == |values|
    ensures SortBy(RealLe, Complements(values))[k] > x <==> 1.0 - SortBy(RealLe, values)[|values| - 1 - k] > x
  {
    OrderIn(Complements(values), k, x);
    ComplementAtMost(values, x);
    OrderIn(values, |values| - 1 - k, 1.0 - x);
  }

  /** The complements sort into the complements the other way round. */
  lemma ComplementsSort(values: seq<real>, k: nat)
    requires k < |values|
    ensures |SortBy(RealLe, values)| == |SortBy(RealLe, Complements(values))| == |values|
    ensures SortBy(RealLe, Complements(values))[k] == 1.0 - SortBy(RealLe, values)[|values| - 1 - k]
  {
    RealSorts(values);
    RealSorts(Complements(values));
    ExceedsTogether(values, k, SortBy(RealLe, Complements(values))[k]);
    ExceedsTogether(values, k, 1.0 - SortBy(RealLe, values)[|values| - 1 - k]);
  }

  lemma MiddleMirrors(s: seq<real>, t: seq<real>)
    requires |s| == |t| && s != []
    requires forall k :: 0 <= k < |s| ==> t[k] == 1.0 - s[|s| - 1 - k]
    ensures Middle(t) == 1.0 - Middle(s)
  {
    assert t[|s| / 2] == 1.0 - s[|s| - 1 - |s| / 2];
    assert |s| % 2 == 0 ==> t[|s| / 2 - 1] == 1.0 - s[|s| / 2];
  }

  lemma MedianOfComplements(values: seq<real>)
    requires values != []
    ensures Median(Complements(values)) == 1.0 - Median(values)
  {
    var s, t := SortBy(RealLe, values), SortBy(RealLe, Complements(values));
    RealSorts(values);
    RealSorts(Complements(values));
    forall k | 0 <= k < |values|
      ensures t[k] == 1.0 - s[|values| - 1 - k]
    {
      ComplementsSort(values, k);
    }
    MiddleMirrors(s, t);
  }

  /** Swapping every over and under price turns p into 1 - p. */
  lemma SwappingComplements(lines: seq<Line>, target: Option<real>)
    ensures ConsensusAtLine(lines, target).None? <==> ConsensusAtLine(Swapped(lines), target).None?
    ensures ConsensusAtLine(lines, target).Some? ==>
      var r, t := ConsensusAtLine(lines, target).value, ConsensusAtLine(Swapped(lines), target).value;
      t == Result(r.line, r.impliedUnder, r.impliedOver, r.books)
  {
    if target.Some? {
      SwappedProbabilities(lines, target.value);
      if Probabilities(lines, target.value) != [] {
        MedianOfComplements(Probabilities(lines, target.value));
      }
    }
  }

  // ---------------------------------------------------------------- changing some books

  /** The same contributing books, some of them at other valid prices. */
  ghost predicate SamePoints(a: seq<Line>, b: seq<Line>, target: real) {
    |a| == |b| && forall i :: 0 <= i < |a| ==> (Contributes(a[i], target) <==> Contributes(b[i], target))
  }

  ghost function Changed(a: seq<Line>, b: seq<Line>, target: real): nat
    requires |a| == |b|
  {
    if a == [] then 0
    else (if Contributes(a[0], target) && a[0] != b[0] then 1 else 0) + Changed(a[1..], b[1..], target)
  }

  /** Which of the contributing books are as they were. */
  ghost function KeptMask(a: seq<Line>, b: seq<Line>, target: real): seq<bool>
    requires |a| == |b|
  {
    if a == [] then []
    else (if Contributes(a[0], target) then [a[0] == b[0]] else []) + KeptMask(a[1..], b[1..], target)
  }

  lemma {:induction false} MaskCounts(a: seq<Line>, b: seq<Line>, target: real)
    requires SamePoints(a, b, target)
    ensures |KeptMask(a, b, target)| == |Probabilities(b, target)| == |Probabilities(a, target)|
    ensures Kept(KeptMask(a, b, target)) + Changed(a, b, target) == |Probabilities(a, target)|
  {
    if a != [] {
      assert SamePoints(a[1..], b[1..], target);
      MaskCounts(a[1..], b[1..], target);
      var rest := KeptMask(a[1..], b[1..], target);
      if Contributes(a[0], target) {
        assert ([a[0] == b[0]] + rest)[1..] == rest;
      } else {
        assert [] + rest == rest;
      }
    }
  }

  ghost predicate UnchangedWithin(a: seq<Line>, b: seq<Line>, target: real, lo: real, hi: real)
    requires |a| == |b|
  {
    forall i :: 0 <= i < |a| && Contributes(a[i], target) && a[i] == b[i] ==> lo <= Probability(a[i], target) <= hi
  }

  lemma {:induction false} MaskWithin(a: seq<Line>, b: seq<Line>, target: real, lo: real, hi: real)
    requires SamePoints(a, b, target) && UnchangedWithin(a, b, target, lo, hi)
    ensures |KeptMask(a, b, target)| == |Probabilities(b, target)|
    ensures forall i :: 0 <= i < |KeptMask(a, b, target)| && KeptMask(a, b, target)[i] ==>
      lo <= Probabilities(b, target)[i] <= hi
  {
    if a != [] {
      MaskWithin(a[1..], b[1..], target, lo, hi);
    }
  }

  /** Moving the prices of at most floor((n-1)/2) of n contributing books to other valid prices
      leaves the consensus within the range of the unchanged books. */
  lemma ConsensusIsRobust(a: seq<Line>, b: seq<Line>, target: real, lo: real, hi: real)
    requires SamePoints(a, b, target) && Probabilities(a, target) != []
    requires Changed(a, b, target) <= (|Probabilities(a, target)| - 1) / 2
    requires UnchangedWithin(a, b, target, lo, hi)
    ensures ConsensusAtLine(b, Some(target)).Some?
    ensures lo <= ConsensusAtLine(b, Some(target)).value.impliedOver <= hi
  {
    MaskCounts(a, b, target);
    MaskWithin(a, b, target, lo, hi);
    MajorityHoldsMedian(Probabilities(b, target), KeptMask(a, b, target), lo, hi);
  }
}
