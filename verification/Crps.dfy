/** The integer ranked probability score. */
module Crps {
  // The evaluator computes it from pairwise distances; the score it stands for is the squared
  // distance, summed over every integer, between the empirical distribution of the sample and
  // the step at the observation.

  import opened Reals
  import opened Wrappers

  const MAX_SAFE := 9007199254740991

  predicate Safe(n: int) {
    -MAX_SAFE <= n <= MAX_SAFE
  }

  function Abs(n: int): nat {
    if n < 0 then -n else n
  }

  /** The total distance of a sample from one point. */
  function AbsoluteError(values: seq<int>, point: int): nat {
    if values == [] then 0 else Abs(values[0] - point) + AbsoluteError(values[1..], point)
  }

  /** The total distance of one sample from every point of another. */
  function Pairwise(points: seq<int>, values: seq<int>): nat {
    if points == [] then 0 else AbsoluteError(values, points[0]) + Pairwise(points[1..], values)
  }

  datatype RpsError = InvalidRpsInput

  function IntegerRps(values: seq<int>, observed: int): Result<real, RpsError> {
    if |values| > 0 && (forall i :: 0 <= i < |values| ==> Safe(values[i])) && Safe(observed) then
      Ok(AbsoluteError(values, observed) as real / |values| as real
         - Pairwise(values, values) as real / (2 * |values| * |values|) as real)
    else Err(InvalidRpsInput)
  }

  ghost function Pow2(k: nat): nat {
    if k == 0 then 1 else 2 * Pow2(k - 1)
  }

  lemma SafeExactly(n: int)
    ensures Safe(n) <==> Abs(n) < Pow2(53)
  {
    assert Pow2(10) == 1024 && Pow2(20) == 1024 * 1024 && Pow2(30) == 1024 * 1024 * 1024;
    assert Pow2(40) == 1024 * 1024 * 1024 * 1024 && Pow2(50) == 1024 * 1024 * 1024 * 1024 * 1024;
    assert Pow2(53) == MAX_SAFE + 1;
  }

  /** There is a score exactly for a sample of at least one value that, like the observation,
      stays within what a double holds exactly. */
  lemma ScoredExactly(values: seq<int>, observed: int)
    ensures IntegerRps(values, observed).Ok? <==>
      values != [] && forall n :: n in values || n == observed ==> Abs(n) < Pow2(53)
  {
    forall n
      ensures Safe(n) <==> Abs(n) < Pow2(53)
    {
      SafeExactly(n);
    }
    assert (forall i :: 0 <= i < |values| ==> Safe(values[i])) <==> forall n :: n in values ==> Safe(n);
  }

  // ---------------------------------------------------------------- the score it stands for

  /** How many sample values are at most `k`. */
  function AtMost(values: seq<int>, k: int): (c: nat)
    ensures c <= |values|
  {
    if values == [] then 0 else (if values[0] <= k then 1 else 0) + AtMost(values[1..], k)
  }

  ghost function Distribution(values: seq<int>, k: int): real
    requires values != []
  {
    AtMost(values, k) as real / |values| as real
  }

  ghost function Step(observed: int, k: int): real {
    if observed <= k then 1.0 else 0.0
  }

  ghost function SquaredGap(values: seq<int>, observed: int, k: int): real
    requires values != []
  {
    (Distribution(values, k) - Step(observed, k)) * (Distribution(values, k) - Step(observed, k))
  }

  /** The sum of `f` over the integers from `lo` up to, but not including, `hi`. */
  ghost function Sum(f: int -> real, lo: int, hi: int): real
    decreases hi - lo
  {
    if hi <= lo then 0.0 else Sum(f, lo, hi - 1) + f(hi - 1)
  }

  ghost function Gaps(values: seq<int>, observed: int): int -> real
    requires values != []
  {
    k => SquaredGap(values, observed, k)
  }

  ghost function Score(values: seq<int>, observed: int, lo: int, hi: int): real
    requires values != []
  {
    Sum(Gaps(values, observed), lo, hi)
  }

  /** A range outside which the distribution and the step agree. */
  ghost predicate Covers(values: seq<int>, observed: int, lo: int, hi: int) {
    lo <= observed <= hi && forall i :: 0 <= i < |values| ==> lo <= values[i] <= hi
  }

  lemma {:induction false} AtMostExtremes(values: seq<int>, k: int)
    ensures (forall i :: 0 <= i < |values| ==> k < values[i]) <==> AtMost(values, k) == 0
    ensures (forall i :: 0 <= i < |values| ==> values[i] <= k) <==> AtMost(values, k) == |values|
  {
    if values != [] {
      AtMostExtremes(values[1..], k);
      assert values == [values[0]] + values[1..];
      assert forall i :: 0 < i < |values| ==> values[i] == values[1..][i - 1];
      assert forall i :: 0 <= i < |values[1..]| ==> values[1..][i] == values[i + 1];
    }
  }

  /** The sum over a covering range is the sum over all integers: every other gap is nought. */
  lemma NoGapOutside(values: seq<int>, observed: int, lo: int, hi: int, k: int)
    requires values != [] && Covers(values, observed, lo, hi) && !(lo <= k < hi)
    ensures SquaredGap(values, observed, k) == 0.0
  {
    AtMostExtremes(values, k);
  }

  // ---------------------------------------------------------------- distances, integer by integer

  /** Whether `k` lies between the two: a distance counts such integers. */
  ghost function Apart(a: int, b: int, k: int): nat {
    if (a <= k) != (b <= k) then 1 else 0
  }

  ghost function ErrorAt(values: seq<int>, point: int, k: int): nat {
    if values == [] then 0 else Apart(values[0], point, k) + ErrorAt(values[1..], point, k)
  }

  ghost function PairsAt(points: seq<int>, values: seq<int>, k: int): nat {
    if points == [] then 0 else ErrorAt(values, points[0], k) + PairsAt(points[1..], values, k)
  }

  ghost function SumApart(a: int, b: int, lo: int, hi: int): nat
    decreases hi - lo
  {
    if hi <= lo then 0 else SumApart(a, b, lo, hi - 1) + Apart(a, b, hi - 1)
  }

  ghost function SumError(values: seq<int>, point: int, lo: int, hi: int): nat
    decreases hi - lo
  {
    if hi <= lo then 0 else SumError(values, point, lo, hi - 1) + ErrorAt(values, point, hi - 1)
  }

  ghost function SumPairs(points: seq<int>, values: seq<int>, lo: int, hi: int): nat
    decreases hi - lo
  {
    if hi <= lo then 0 else SumPairs(points, values, lo, hi - 1) + PairsAt(points, values, hi - 1)
  }

  lemma {:induction false} ApartCounts(a: int, b: int, lo: int, hi: int)
    requires a <= b
    ensures SumApart(a, b, lo, hi) == SumApart(b, a, lo, hi)
    ensures lo <= a && hi <= a ==> SumApart(a, b, lo, hi) == 0
    ensures lo <= a <= hi <= b ==> SumApart(a, b, lo, hi) == hi - a
    ensures lo <= a && b <= hi ==> SumApart(a, b, lo, hi) == b - a
    decreases hi - lo
  {
    if lo < hi {
      ApartCounts(a, b, lo, hi - 1);
    }
  }

  lemma {:induction false} ErrorSplits(values: seq<int>, point: int, lo: int, hi: int)
    requires values != []
    ensures SumError(values, point, lo, hi) == SumApart(values[0], point, lo, hi) + SumError(values[1..], point, lo, hi)
    decreases hi - lo
  {
    if lo < hi {
      ErrorSplits(values, point, lo, hi - 1);
    }
  }

  lemma {:induction false} PairsSplit(points: seq<int>, values: seq<int>, lo: int, hi: int)
    requires points != []
    ensures SumPairs(points, values, lo, hi)
        == SumError(values, points[0], lo, hi) + SumPairs(points[1..], values, lo, hi)
    decreases hi - lo
  {
    if lo < hi {
      PairsSplit(points, values, lo, hi - 1);
    }
  }

  lemma {:induction false} NoErrors(point: int, lo: int, hi: int)
    ensures SumError([], point, lo, hi) == 0
    decreases hi - lo
  {
    if lo < hi {
      NoErrors(point, lo, hi - 1);
    }
  }

  lemma {:induction false} NoPairs(values: seq<int>, lo: int, hi: int)
    ensures SumPairs([], values, lo, hi) == 0
    decreases hi - lo
  {
    if lo < hi {
      NoPairs(values, lo, hi - 1);
    }
  }

  lemma {:induction false} ErrorByIntegers(values: seq<int>, point: int, lo: int, hi: int)
    requires Covers(values, point, lo, hi)
    ensures AbsoluteError(values, point) == SumError(values, point, lo, hi)
  {
    if values == [] {
      NoErrors(point, lo, hi);
    } else {
      ErrorSplits(values, point, lo, hi);
      ErrorByIntegers(values[1..], point, lo, hi);
      if values[0] <= point {
        ApartCounts(values[0], point, lo, hi);
      } else {
        ApartCounts(point, values[0], lo, hi);
      }
    }
  }

  lemma {:induction false} PairsByIntegers(points: seq<int>, values: seq<int>, lo: int, hi: int)
    requires forall i :: 0 <= i < |points| ==> Covers(values, points[i], lo, hi)
    ensures Pairwise(points, values) == SumPairs(points, values, lo, hi)
  {
    if points == [] {
      NoPairs(values, lo, hi);
    } else {
      PairsSplit(points, values, lo, hi);
      ErrorByIntegers(values, points[0], lo, hi);
      PairsByIntegers(points[1..], values, lo, hi);
    }
  }

  // ---------------------------------------------------------------- one integer at a time

  lemma {:induction false} ErrorInCounts(values: seq<int>, point: int, k: int)
    ensures ErrorAt(values, point, k) == if point <= k then |values| - AtMost(values, k) else AtMost(values, k)
  {
    if values != [] {
      ErrorInCounts(values[1..], point, k);
    }
  }

  /** Pairs on either side of an integer: c of m points below it, d of n values. */
  ghost function Across(c: int, m: int, d: int, n: int): int {
    c * (n - d) + (m - c) * d
  }

  lemma OneMore(c: int, m: int, d: int, n: int)
    ensures Across(c + 1, m + 1, d, n) == Across(c, m, d, n) + (n - d)
    ensures Across(c, m + 1, d, n) == Across(c, m, d, n) + d
  {
    assert (c + 1) * (n - d) == c * (n - d) + (n - d);
    assert (m + 1 - c) * d == (m - c) * d + d;
  }

  lemma {:induction false} PairsInCounts(points: seq<int>, values: seq<int>, k: int)
    ensures PairsAt(points, values, k) == Across(AtMost(points, k), |points|, AtMost(values, k), |values|)
  {
    if points != [] {
      PairsInCounts(points[1..], values, k);
      ErrorInCounts(values, points[0], k);
      OneMore(AtMost(points[1..], k), |points| - 1, AtMost(values, k), |values|);
    }
  }

  ghost function Square(n: int): int {
    n * n
  }

  /** n times the gap, an integer. */
  ghost function CountGap(values: seq<int>, observed: int, k: int): int {
    AtMost(values, k) - if observed <= k then |values| else 0
  }

  lemma Binomial(c: int, d: int)
    ensures 2 * ((c + d) * d) - (c * d + d * c) == 2 * (d * d)
    ensures 2 * ((c + d) * c) - (c * d + d * c) == 2 * (c * c)
  {
  }

  /** The algebra of one integer: n values, c of them at most it, the observation too or not. */
  lemma GapAlgebra(c: int, d: int, n: int, below: bool)
    requires d == n - c
    ensures below ==> 2 * Square(0 - d) == 2 * (n * d) - Across(c, n, c, n)
    ensures !below ==> 2 * Square(c) == 2 * (n * c) - Across(c, n, c, n)
  {
    Binomial(c, d);
    assert (0 - d) * (0 - d) == d * d;
  }

  /** The same in terms of integers that stand for the gap, the distance and the pairs. */
  lemma GapFromCounts(gap: int, c: int, n: int, e: int, p: int, below: bool)
    requires gap == c - if below then n else 0
    requires e == if below then n - c else c
    requires p == Across(c, n, c, n)
    ensures 2 * Square(gap) == 2 * (n * e) - p
  {
    GapAlgebra(c, n - c, n, below);
  }

  lemma GapInDistances(values: seq<int>, observed: int, k: int)
    ensures 2 * Square(CountGap(values, observed, k))
         == 2 * (|values| * ErrorAt(values, observed, k)) - PairsAt(values, values, k)
  {
    ErrorInCounts(values, observed, k);
    PairsInCounts(values, values, k);
    GapFromCounts(CountGap(values, observed, k), AtMost(values, k), |values|,
                  ErrorAt(values, observed, k), PairsAt(values, values, k), observed <= k);
  }

  ghost function SumSquares(values: seq<int>, observed: int, lo: int, hi: int): int
    decreases hi - lo
  {
    if hi <= lo then 0
    else SumSquares(values, observed, lo, hi - 1) + Square(CountGap(values, observed, hi - 1))
  }

  lemma {:induction false} SquaresInDistances(values: seq<int>, observed: int, lo: int, hi: int)
    ensures 2 * SumSquares(values, observed, lo, hi)
         == 2 * (|values| * SumError(values, observed, lo, hi)) - SumPairs(values, values, lo, hi)
    decreases hi - lo
  {
    if lo < hi {
      SquaresInDistances(values, observed, lo, hi - 1);
      GapInDistances(values, observed, hi - 1);
      Distribute(|values|, SumError(values, observed, lo, hi - 1), ErrorAt(values, observed, hi - 1));
    }
  }

  lemma Distribute(a: int, b: int, c: int)
    ensures a * (b + c) == a * b + a * c
  {
  }

  // ---------------------------------------------------------------- reals

  lemma SquareScaled(gap: real, n: real, count: real)
    requires gap * n == count
    ensures (gap * gap) * (n * n) == count * count
  {
    assert (gap * gap) * (n * n) == (gap * n) * (gap * n);
  }

  lemma DifferenceScaled(c: real, n: real, t: real)
    requires n > 0.0
    ensures (c / n - t) * n == c - t * n
  {
    Undivided(c, n);
    DistributeReal(c / n, -t, n);
  }

  /** In terms of integers and reals that stand for the counts, the step and the gap. */
  lemma GapFromReals(c: int, n: int, below: bool, gap: real, m: int)
    requires n > 0 && m == n * n && gap == c as real / n as real - (if below then 1.0 else 0.0)
    ensures (gap * gap) * m as real == Square(c - if below then n else 0) as real
  {
    var count := c - if below then n else 0;
    DifferenceScaled(c as real, n as real, if below then 1.0 else 0.0);
    SquareScaled(gap, n as real, count as real);
    SquareReal(count);
    SquareReal(n);
  }

  lemma GapScaled(values: seq<int>, observed: int, k: int, m: int)
    requires values != [] && m == |values| * |values|
    ensures SquaredGap(values, observed, k) * m as real == Square(CountGap(values, observed, k)) as real
  {
    GapFromReals(AtMost(values, k), |values|, observed <= k, Distribution(values, k) - Step(observed, k), m);
  }

  lemma SquareReal(n: int)
    ensures (n * n) as real == n as real * n as real
  {
  }

  ghost predicate Scaled(f: int -> real, g: int -> real, m: real) {
    forall k :: f(k) * m == g(k)
  }

  lemma {:induction false} SumScaled(f: int -> real, g: int -> real, m: real, lo: int, hi: int)
    requires Scaled(f, g, m)
    ensures Sum(f, lo, hi) * m == Sum(g, lo, hi)
    decreases hi - lo
  {
    if lo < hi {
      SumScaled(f, g, m, lo, hi - 1);
      DistributeReal(Sum(f, lo, hi - 1), f(hi - 1), m);
    }
  }

  ghost function CountGaps(values: seq<int>, observed: int): int -> real {
    k => Square(CountGap(values, observed, k)) as real
  }

  lemma {:induction false} SquaresAsReals(values: seq<int>, observed: int, lo: int, hi: int)
    ensures Sum(CountGaps(values, observed), lo, hi) == SumSquares(values, observed, lo, hi) as real
    decreases hi - lo
  {
    if lo < hi {
      SquaresAsReals(values, observed, lo, hi - 1);
    }
  }

  lemma GapsScaled(values: seq<int>, observed: int, m: nat)
    requires values != [] && m == |values| * |values|
    ensures Scaled(Gaps(values, observed), CountGaps(values, observed), m as real)
  {
    forall k
      ensures Gaps(values, observed)(k) * m as real == CountGaps(values, observed)(k)
    {
      GapScaled(values, observed, k, m);
    }
  }

  lemma ScaledDifference(x: real, y: real, n: real, a: real, p: real)
    requires x * n == a && y * (2.0 * (n * n)) == p
    ensures (x - y) * (2.0 * (n * n)) == 2.0 * (a * n) - p
  {
    assert x * (n * n) == (x * n) * n;
    DistributeReal(x, -y, 2.0 * (n * n));
  }

  /** The formula times 2n^2, in terms of reals that stand for n, its double square, and so on. */
  lemma FormulaScaled(a: real, p: real, n: real, d: real, square: real)
    requires n > 0.0 && square > 0.0 && square == n * n && d == 2.0 * square
    ensures (a / n - p / d) * d == 2.0 * (a * n) - p
  {
    Undivided(a, n);
    Undivided(p, d);
    ScaledDifference(a / n, p / d, n, a, p);
  }

  lemma Casts(n: nat, a: nat, p: nat, m: nat)
    requires m == n * n && n > 0
    ensures m > 0 && m as real == n as real * n as real
    ensures (2 * (n * a) - p) as real == 2.0 * (a as real * n as real) - p as real
  {
    var na := n * a;
    assert na as real == n as real * a as real;
  }

  /** The formula, cleared of its denominators. */
  lemma FormulaInIntegers(n: nat, a: nat, p: nat, m: nat, d: nat, x: real)
    requires n > 0 && m == n * n && d == 2 * n * n
    requires m > 0 && d == 2 * m && x == a as real / n as real - p as real / d as real
    ensures x * d as real == (2 * (n * a) - p) as real
  {
    Casts(n, a, p, m);
    FormulaScaled(a as real, p as real, n as real, d as real, m as real);
  }

  lemma Doubled(n: nat, m: nat, d: nat)
    requires m == n * n && d == 2 * n * n && n > 0
    ensures d == 2 * m && m > 0
  {
  }

  lemma RpsScaled(values: seq<int>, observed: int, rps: real, m: nat, d: nat)
    requires IntegerRps(values, observed) == Ok(rps)
    requires m == |values| * |values| && d == 2 * |values| * |values| && d == 2 * m && m > 0
    ensures rps * d as real == (2 * (|values| * AbsoluteError(values, observed)) - Pairwise(values, values)) as real
  {
    FormulaInIntegers(|values|, AbsoluteError(values, observed), Pairwise(values, values), m, d, rps);
  }

  // ---------------------------------------------------------------- the score

  lemma DistancesInSquares(values: seq<int>, observed: int, lo: int, hi: int)
    requires Covers(values, observed, lo, hi)
    ensures 2 * (|values| * AbsoluteError(values, observed)) - Pairwise(values, values)
         == 2 * SumSquares(values, observed, lo, hi)
  {
    ErrorByIntegers(values, observed, lo, hi);
    PairsByIntegers(values, values, lo, hi);
    SquaresInDistances(values, observed, lo, hi);
  }

  /** A number is a sum when some factor takes both to the same value. */
  lemma SumDetermined(f: int -> real, g: int -> real, x: real, lo: int, hi: int, m: nat, d: nat, s: int)
    requires Scaled(f, g, m as real) && Sum(g, lo, hi) == s as real
    requires m > 0 && d == 2 * m && x * d as real == (2 * s) as real
    ensures x == Sum(f, lo, hi)
  {
    SumScaled(f, g, m as real, lo, hi);
    Cancel(x, Sum(f, lo, hi), m as real, d as real, s as real);
  }

  /** What the pairwise formula computes is the score, over whatever range covers the data. */
  lemma RpsIsTheScore(values: seq<int>, observed: int, rps: real, lo: int, hi: int)
    requires IntegerRps(values, observed) == Ok(rps) && Covers(values, observed, lo, hi)
    ensures rps == Score(values, observed, lo, hi)
  {
    var n := |values|;
    var m, d, s := n * n, 2 * n * n, SumSquares(values, observed, lo, hi);
    Doubled(n, m, d);
    RpsScaled(values, observed, rps, m, d);
    DistancesInSquares(values, observed, lo, hi);
    GapsScaled(values, observed, m);
    SquaresAsReals(values, observed, lo, hi);
    SumDetermined(Gaps(values, observed), CountGaps(values, observed), rps, lo, hi, m, d, s);
  }

  lemma Cancel(a: real, b: real, m: real, d: real, s: real)
    requires m > 0.0 && d == 2.0 * m && a * d == 2.0 * s && b * m == s
    ensures a == b
  {
    assert a * d == 2.0 * (a * m);
    DistributeReal(a, -b, m);
    assert (a - b) * m == 0.0;
  }

  lemma {:induction false} CoveringRange(values: seq<int>, observed: int) returns (lo: int, hi: int)
    ensures Covers(values, observed, lo, hi)
  {
    if values == [] {
      lo, hi := observed, observed;
    } else {
      lo, hi := CoveringRange(values[1..], observed);
      if values[0] < lo {
        lo := values[0];
      }
      if hi < values[0] {
        hi := values[0];
      }
      assert forall i :: 0 < i < |values| ==> values[i] == values[1..][i - 1];
    }
  }

  lemma {:induction false} SquaresAdd(values: seq<int>, observed: int, lo: int, hi: int)
    ensures SumSquares(values, observed, lo, hi) >= 0
    ensures SumSquares(values, observed, lo, hi) == 0
       <==> forall k :: lo <= k < hi ==> CountGap(values, observed, k) == 0
    decreases hi - lo
  {
    if lo < hi {
      SquaresAdd(values, observed, lo, hi - 1);
      SquareSign(CountGap(values, observed, hi - 1));
    }
  }

  lemma SquareSign(n: int)
    ensures Square(n) >= 0 && (Square(n) == 0 <==> n == 0)
  {
  }

  lemma NoGapMeansEqual(values: seq<int>, observed: int, lo: int, hi: int)
    requires Covers(values, observed, lo, hi)
    ensures (forall k :: lo <= k < hi ==> CountGap(values, observed, k) == 0)
       <==> forall i :: 0 <= i < |values| ==> values[i] == observed
  {
    if forall k :: lo <= k < hi ==> CountGap(values, observed, k) == 0 {
      forall i | 0 <= i < |values|
        ensures values[i] == observed
      {
        var k := if values[i] < observed then values[i] else observed;
        AtMostExtremes(values, k);
        assert lo <= k < hi ==> CountGap(values, observed, k) == 0;
      }
    }
    if forall i :: 0 <= i < |values| ==> values[i] == observed {
      forall k | lo <= k < hi
        ensures CountGap(values, observed, k) == 0
      {
        AtMostExtremes(values, k);
      }
    }
  }

  /** The score is never negative, and nought only for a sample that is the observation. */
  lemma RpsIsProper(values: seq<int>, observed: int, rps: real)
    requires IntegerRps(values, observed) == Ok(rps)
    ensures rps >= 0.0
    ensures rps == 0.0 <==> forall i :: 0 <= i < |values| ==> values[i] == observed
  {
    var lo, hi := CoveringRange(values, observed);
    var m, d := |values| * |values|, 2 * |values| * |values|;
    Doubled(|values|, m, d);
    RpsScaled(values, observed, rps, m, d);
    DistancesInSquares(values, observed, lo, hi);
    SquaresAdd(values, observed, lo, hi);
    NoGapMeansEqual(values, observed, lo, hi);
    SignOfFactor(rps, d as real);
  }

  lemma SignOfFactor(a: real, m: real)
    requires m > 0.0
    ensures a >= 0.0 <==> a * m >= 0.0
    ensures a == 0.0 <==> a * m == 0.0
  {
  }
}
