/** Empirical probabilities of a sample and the calibration bins they fall into.  Masses are
    exact fractions here, so what the source does in floating point is read over the reals, and
    exact counts decide the bins. */
module Calibration {
  import opened Reals
  import opened Wrappers
  import opened Sorting

  // ---------------------------------------------------------------- counts

  datatype Side = Under | Over | Push

  function SideOf(value: int, line: real): Side {
    if value as real > line then Over else if (value as real) < line then Under else Push
  }

  function CountSide(values: seq<int>, line: real, side: Side): (c: nat)
    ensures c <= |values|
  {
    if values == [] then 0
    else CountSide(values[..|values| - 1], line, side) + if SideOf(values[|values| - 1], line) == side then 1 else 0
  }

  lemma {:induction false} SidesAddUp(values: seq<int>, line: real)
    ensures CountSide(values, line, Under) + CountSide(values, line, Over) + CountSide(values, line, Push) == |values|
  {
    if values != [] {
      SidesAddUp(values[..|values| - 1], line);
    }
  }

  ghost function OnSide(line: real, side: Side): int -> bool {
    (v: int) =>
      match side
      case Over => v as real > line
      case Under => (v as real) < line
      case Push => v as real == line
  }

  /** What is counted on a side is how many values lie there. */
  lemma {:induction false} SideCounts(values: seq<int>, line: real, side: Side)
    ensures CountSide(values, line, side) == HowMany(OnSide(line, side), values)
  {
    if values == [] {
      NoneAreSuch(OnSide(line, side));
    } else {
      SideCounts(values[..|values| - 1], line, side);
      HowManyInit(OnSide(line, side), values);
    }
  }

  // ---------------------------------------------------------------- bins

  /** Ten half-open bins; the last one closes at 1. */
  function Bin(count: nat, total: nat): (b: nat)
    requires count <= total && total > 0
    ensures b < 10
  {
    var b := 10 * count / total;
    if b < 9 then b else 9
  }

  datatype Bins = Bins(over: nat, under: nat, push: nat)

  /** One pass over the sample counts each side; exact counts decide the bins. */
  method EmpiricalCalibrationBins(values: seq<int>, line: real) returns (bins: Bins)
    requires values != []
    ensures bins == BinsOf(values, line)
  {
    var over, under, push := 0, 0, 0;
    for i := 0 to |values|
      invariant over == CountSide(values[..i], line, Over)
      invariant under == CountSide(values[..i], line, Under)
      invariant push == CountSide(values[..i], line, Push)
    {
      assert values[..i + 1][..i] == values[..i];
      if values[i] as real > line {
        over := over + 1;
      } else if (values[i] as real) < line {
        under := under + 1;
      } else {
        push := push + 1;
      }
    }
    assert values[..|values|] == values;
    bins := Bins(Bin(over, |values|), Bin(under, |values|), Bin(push, |values|));
  }

  function BinsOf(values: seq<int>, line: real): Bins
    requires values != []
  {
    Bins(Bin(CountSide(values, line, Over), |values|), Bin(CountSide(values, line, Under), |values|),
         Bin(CountSide(values, line, Push), |values|))
  }

  function BinOf(bins: Bins, side: Side): nat {
    match side case Over => bins.over case Under => bins.under case Push => bins.push
  }

  lemma QuotientOf(n: nat, d: nat)
    requires d > 0
    ensures (n / d) * d <= n < (n / d + 1) * d
  {
    assert n == (n / d) * d + n % d;
  }

  lemma ScaledBounds(c: nat, t: nat, lower: nat, p: real)
    requires t > 0 && p * t as real == c as real && lower * t <= 10 * c
    ensures lower as real / 10.0 <= p
  {
    assert (lower * t) as real == lower as real * t as real;
    assert (lower as real - 10.0 * p) * t as real == (lower * t) as real - 10.0 * (p * t as real);
    if lower as real - 10.0 * p > 0.0 {
      PositiveProduct(lower as real - 10.0 * p, t as real);
    }
  }

  lemma UpperBound(c: nat, t: nat, upper: nat, p: real)
    requires t > 0 && p * t as real == c as real && 10 * c < upper * t
    ensures p < upper as real / 10.0
  {
    assert (upper * t) as real == upper as real * t as real;
    assert (10.0 * p - upper as real) * t as real == 10.0 * (p * t as real) - (upper * t) as real;
    if 10.0 * p - upper as real >= 0.0 {
      PositiveProduct(10.0 * p - upper as real, t as real);
    }
  }

  lemma BinBelow(b: nat, q: nat, total: nat)
    requires b <= q
    ensures b * total <= q * total
  {
  }

  lemma BinBounds(count: nat, total: nat)
    requires count <= total && total > 0
    ensures Bin(count, total) * total <= 10 * count
    ensures 10 * count < (Bin(count, total) + 1) * total || (Bin(count, total) == 9 && count == total)
  {
    var q, b := 10 * count / total, Bin(count, total);
    QuotientOf(10 * count, total);
    BinBelow(b, q, total);
    if q >= 10 {
      BinBelow(10, q, total);
    }
  }

  lemma BoundsHold(count: nat, total: nat, b: nat, p: real)
    requires count <= total && total > 0 && p * total as real == count as real
    requires b * total <= 10 * count && (10 * count < (b + 1) * total || (b == 9 && count == total))
    ensures b as real / 10.0 <= p
    ensures p < (b + 1) as real / 10.0 || (b == 9 && p == 1.0)
  {
    ScaledBounds(count, total, b, p);
    Uppermost(count, total, b, p);
  }

  lemma Uppermost(count: nat, total: nat, b: nat, p: real)
    requires count <= total && total > 0 && p * total as real == count as real
    requires 10 * count < (b + 1) * total || (b == 9 && count == total)
    ensures p < (b + 1) as real / 10.0 || (b == 9 && p == 1.0)
  {
    if 10 * count < (b + 1) * total {
      UpperBound(count, total, b + 1, p);
    } else {
      WholeIsOne(count, total, p);
    }
  }

  function Share(count: nat, total: nat): real
    requires total > 0
  {
    count as real / total as real
  }

  lemma ShareTimes(count: nat, total: nat)
    requires total > 0
    ensures Share(count, total) * total as real == count as real
  {
  }

  /** A share lies in the bin its count falls into, and meets the bin's upper bound only when it
      is the whole. */
  lemma BinHolds(count: nat, total: nat)
    requires count <= total && total > 0
    ensures Bin(count, total) as real / 10.0 <= Share(count, total)
    ensures Share(count, total) < (Bin(count, total) + 1) as real / 10.0
         || (Bin(count, total) == 9 && Share(count, total) == 1.0)
  {
    BinBounds(count, total);
    ShareTimes(count, total);
    BoundsHold(count, total, Bin(count, total), Share(count, total));
  }

  lemma WholeIsOne(count: nat, total: nat, p: real)
    requires total > 0 && count == total && p * total as real == count as real
    ensures p == 1.0
  {
    var t := total as real;
    assert (p - 1.0) * t == p * t - t;
    ZeroFactor(p - 1.0, t);
  }

  // ---------------------------------------------------------------- the empirical distribution

  datatype Point = Point(value: int, mass: real)

  function Occurrences(values: seq<int>, v: int): nat {
    multiset(values)[v]
  }

  /** The point carries its value's share of the sample. */
  ghost predicate Weighs(p: Point, values: seq<int>) {
    values != [] && p.mass == Share(Occurrences(values, p.value), |values|)
  }

  /** Each value of the sample once, in ascending order, with its share of the sample. */
  ghost predicate IsSupport(points: seq<Point>, values: seq<int>) {
    && (forall i, j :: 0 <= i < j < |points| ==> points[i].value < points[j].value)
    && (forall i :: 0 <= i < |points| ==> points[i].value in values && Weighs(points[i], values))
    && (forall v :: v in values ==> exists i :: 0 <= i < |points| && points[i].value == v)
  }

  function Self(v: int): int {
    v
  }

  function IntLe(a: int, b: int): bool {
    a <= b
  }

  lemma KeyedSnoc(keys: seq<int>, v: int)
    requires Keyed(Self, keys) && v !in keys
    ensures Keyed(Self, keys + [v])
  {
  }

  lemma OneMoreValue(values: seq<int>, i: nat)
    requires i < |values|
    ensures forall v :: v in values[..i + 1] <==> v in values[..i] || v == values[i]
    ensures forall v :: Occurrences(values[..i + 1], v) == Occurrences(values[..i], v) + if v == values[i] then 1 else 0
    ensures values[i] !in values[..i] ==> Occurrences(values[..i], values[i]) == 0
  {
    assert values[..i + 1] == values[..i] + [values[i]];
  }

  /** The counting map, and its keys in the order they were first set. */
  method CountValues(values: seq<int>) returns (counts: map<int, nat>, keys: seq<int>)
    ensures forall v :: v in keys <==> v in values
    ensures forall v :: v in counts <==> v in values
    ensures forall v :: v in counts ==> counts[v] == Occurrences(values, v)
    ensures Keyed(Self, keys)
  {
    counts, keys := map[], [];
    for i := 0 to |values|
      invariant forall v :: v in keys <==> v in values[..i]
      invariant forall v :: v in counts <==> v in values[..i]
      invariant forall v :: v in counts ==> counts[v] == Occurrences(values[..i], v)
      invariant Keyed(Self, keys)
    {
      var v := values[i];
      ghost var before := keys;
      OneMoreValue(values, i);
      if v !in counts {
        KeyedSnoc(keys, v);
        keys := keys + [v];
      }
      assert forall k :: k in keys <==> k in before || k == v;
      counts := counts[v := (if v in counts then counts[v] else 0) + 1];
    }
    assert values[..|values|] == values;
  }

  method EqualMassSupport(values: seq<int>) returns (points: seq<Point>)
    ensures IsSupport(points, values)
  {
    var counts, keys := CountValues(values);
    var sorted := SortBy(IntLe, keys);
    Ascends(keys);
    points := [];
    for i := 0 to |sorted|
      invariant |points| == i
      invariant forall k :: 0 <= k < i ==> points[k].value == sorted[k]
      invariant forall k :: 0 <= k < i ==> Weighs(points[k], values)
    {
      assert sorted[i] in sorted;
      points := points + [Point(sorted[i], Share(counts[sorted[i]], |values|))];
    }
    IsOneSupport(points, sorted, values);
  }

  lemma IsOneSupport(points: seq<Point>, sorted: seq<int>, values: seq<int>)
    requires |points| == |sorted| && forall k :: 0 <= k < |points| ==> points[k].value == sorted[k]
    requires forall k :: 0 <= k < |points| ==> Weighs(points[k], values)
    requires forall i, j :: 0 <= i < j < |sorted| ==> sorted[i] < sorted[j]
    requires forall v :: v in sorted <==> v in values
    ensures IsSupport(points, values)
  {
    forall v | v in values
      ensures exists i :: 0 <= i < |points| && points[i].value == v
    {
      var i :| 0 <= i < |sorted| && sorted[i] == v;
      assert points[i].value == v;
    }
    forall i | 0 <= i < |points|
      ensures points[i].value in values
    {
      assert sorted[i] in sorted;
    }
  }

  lemma Ascends(keys: seq<int>)
    requires Keyed(Self, keys)
    ensures forall i, j :: 0 <= i < j < |SortBy(IntLe, keys)| ==> SortBy(IntLe, keys)[i] < SortBy(IntLe, keys)[j]
    ensures forall v :: v in SortBy(IntLe, keys) <==> v in keys
  {
    var sorted := SortBy(IntLe, keys);
    SortKeeps(IntLe, keys);
    SortSorts(IntLe, keys);
    SameElements(keys, sorted);
    KeyedAnyOrder(Self, keys, sorted);
    forall i, j | 0 <= i < j < |sorted|
      ensures sorted[i] < sorted[j]
    {
      assert IntLe(sorted[i], sorted[j]) && sorted[i] != sorted[j];
    }
  }

  // ---------------------------------------------------------------- probabilities at a line

  datatype Triple = Triple(over: real, under: real, push: real)

  datatype LineError = InvalidTriple

  predicate ValidTriple(t: Triple) {
    && 0.0 <= t.over <= 1.0
    && 0.0 <= t.under <= 1.0
    && 0.0 <= t.push <= 1.0
    && t.over + t.under + t.push == 1.0
  }

  function MassOn(points: seq<Point>, line: real, side: Side): real {
    if points == [] then 0.0
    else
      var last := points[|points| - 1];
      MassOn(points[..|points| - 1], line, side) + if SideOf(last.value, line) == side then last.mass else 0.0
  }

  function TotalMass(points: seq<Point>): real {
    if points == [] then 0.0 else TotalMass(points[..|points| - 1]) + points[|points| - 1].mass
  }

  function TripleOf(under: real, push: real, total: real): Triple
    requires total != 0.0
  {
    var u, p := under / total, push / total;
    Triple(if 1.0 - u - p < 0.0 then 0.0 else 1.0 - u - p, u, p)
  }

  /** No support means no answer; a support without mass, or masses that do not make a
      probability, are refused. */
  method ProbabilityAt(support: Option<seq<Point>>, line: real) returns (r: Result<Option<Triple>, LineError>)
    ensures support.None? ==> r == Ok(None)
    ensures support.Some? ==>
      var total := TotalMass(support.value);
      if total == 0.0 then r.Err?
      else
        var t := TripleOf(MassOn(support.value, line, Under), MassOn(support.value, line, Push), total);
        r == if ValidTriple(t) then Ok(Some(t)) else Err(InvalidTriple)
  {
    if support.None? {
      return Ok(None);
    }
    var points := support.value;
    var underMass, pushMass, totalMass := 0.0, 0.0, 0.0;
    for i := 0 to |points|
      invariant underMass == MassOn(points[..i], line, Under)
      invariant pushMass == MassOn(points[..i], line, Push)
      invariant totalMass == TotalMass(points[..i])
    {
      assert points[..i + 1][..i] == points[..i];
      totalMass := totalMass + points[i].mass;
      if (points[i].value as real) < line {
        underMass := underMass + points[i].mass;
      }
      if points[i].value as real == line {
        pushMass := pushMass + points[i].mass;
      }
    }
    assert points[..|points|] == points;
    if totalMass == 0.0 {
      return Err(InvalidTriple);
    }
    var t := TripleOf(underMass, pushMass, totalMass);
    return if ValidTriple(t) then Ok(Some(t)) else Err(InvalidTriple);
  }

  // ---------------------------------------------------------------- masses are shares

  /** How often the points of one side occur in the sample. */
  ghost function OccurrencesOn(points: seq<Point>, values: seq<int>, line: real, side: Side): nat {
    if points == [] then 0
    else
      var last := points[|points| - 1];
      OccurrencesOn(points[..|points| - 1], values, line, side)
      + if SideOf(last.value, line) == side then Occurrences(values, last.value) else 0
  }

  /** A share put together part by part. */
  ghost function Parts(count: nat, total: nat): real
    requires total > 0
  {
    if count == 0 then 0.0 else Parts(count - 1, total) + 1.0 / total as real
  }

  lemma OneMorePart(count: nat, total: nat)
    requires total > 0
    ensures Share(count + 1, total) == Share(count, total) + 1.0 / total as real
  {
  }

  lemma {:induction false} PartsMakeShares(count: nat, total: nat)
    requires total > 0
    ensures Parts(count, total) == Share(count, total)
  {
    if count > 0 {
      PartsMakeShares(count - 1, total);
      OneMorePart(count - 1, total);
    }
  }

  lemma {:induction false} PartsAdd(a: nat, b: nat, total: nat)
    requires total > 0
    ensures Parts(a + b, total) == Parts(a, total) + Parts(b, total)
  {
    if b > 0 {
      PartsAdd(a, b - 1, total);
    }
  }

  lemma PartPositive(total: nat)
    requires total > 0
    ensures 1.0 / total as real > 0.0
  {
  }

  lemma {:induction false} PartsPositive(count: nat, total: nat)
    requires total > 0
    ensures Parts(count, total) >= 0.0
  {
    if count > 0 {
      PartsPositive(count - 1, total);
      PartPositive(total);
    }
  }

  lemma WholeShare(total: nat)
    requires total > 0
    ensures Share(total, total) == 1.0
  {
  }

  lemma {:induction false} MassesInOccurrences(points: seq<Point>, values: seq<int>, line: real, side: Side)
    requires values != [] && forall i :: 0 <= i < |points| ==> Weighs(points[i], values)
    ensures MassOn(points, line, side) == Parts(OccurrencesOn(points, values, line, side), |values|)
  {
    if points != [] {
      var k := |points| - 1;
      var last := points[k];
      MassesInOccurrences(points[..k], values, line, side);
      assert Weighs(last, values);
      PartsMakeShares(Occurrences(values, last.value), |values|);
      PartsAdd(OccurrencesOn(points[..k], values, line, side), Occurrences(values, last.value), |values|);
    }
  }

  ghost function PointsAt(points: seq<Point>, v: int): nat {
    if points == [] then 0
    else PointsAt(points[..|points| - 1], v) + if points[|points| - 1].value == v then 1 else 0
  }

  lemma {:induction false} OnePointAt(points: seq<Point>, v: int)
    requires forall i, j :: 0 <= i < j < |points| ==> points[i].value < points[j].value
    ensures PointsAt(points, v) == if exists i :: 0 <= i < |points| && points[i].value == v then 1 else 0
  {
    if points != [] {
      var k := |points| - 1;
      OnePointAt(points[..k], v);
      assert forall i :: 0 <= i < k ==> points[..k][i] == points[i];
      if exists i :: 0 <= i < |points| && points[i].value == v {
        var i :| 0 <= i < |points| && points[i].value == v;
        assert i < k ==> points[..k][i].value == v;
      }
    }
  }

  lemma {:induction false} OneMoreOccurrence(points: seq<Point>, values: seq<int>, v: int, line: real, side: Side)
    ensures OccurrencesOn(points, values + [v], line, side)
         == OccurrencesOn(points, values, line, side) + if SideOf(v, line) == side then PointsAt(points, v) else 0
  {
    if points != [] {
      OneMoreOccurrence(points[..|points| - 1], values, v, line, side);
    }
  }

  lemma {:induction false} NoOccurrences(points: seq<Point>, line: real, side: Side)
    ensures OccurrencesOn(points, [], line, side) == 0
  {
    if points != [] {
      NoOccurrences(points[..|points| - 1], line, side);
    }
  }

  lemma {:induction false} OccurrencesCount(points: seq<Point>, values: seq<int>, line: real, side: Side)
    requires forall i, j :: 0 <= i < j < |points| ==> points[i].value < points[j].value
    requires forall k :: 0 <= k < |values| ==> PointsAt(points, values[k]) == 1
    ensures OccurrencesOn(points, values, line, side) == CountSide(values, line, side)
  {
    if values == [] {
      NoOccurrences(points, line, side);
    } else {
      var k := |values| - 1;
      OccurrencesCount(points, values[..k], line, side);
      OneMoreOccurrence(points, values[..k], values[k], line, side);
      assert values == values[..k] + [values[k]];
    }
  }

  /** The mass on a side is that side's share of the sample. */
  lemma MassesAreShares(points: seq<Point>, values: seq<int>, line: real, side: Side)
    requires values != [] && IsSupport(points, values)
    ensures MassOn(points, line, side) == Parts(CountSide(values, line, side), |values|)
  {
    MassesInOccurrences(points, values, line, side);
    forall k | 0 <= k < |values|
      ensures PointsAt(points, values[k]) == 1
    {
      OnePointAt(points, values[k]);
      assert values[k] in values;
    }
    OccurrencesCount(points, values, line, side);
  }

  lemma {:induction false} TotalIsSides(points: seq<Point>, line: real)
    ensures TotalMass(points) == MassOn(points, line, Under) + MassOn(points, line, Push) + MassOn(points, line, Over)
  {
    if points != [] {
      TotalIsSides(points[..|points| - 1], line);
    }
  }

  lemma SharesMakeOne(u: real, p: real, o: real, total: real)
    requires total != 0.0 && total == u + p + o
    ensures u / total + p / total + o / total == 1.0
  {
    assert u / total + p / total + o / total == (u + p + o) / total;
  }

  /** There is an answer exactly if no side's share of the mass is negative, and it is these shares. */
  lemma AnswersAreShares(points: seq<Point>, line: real)
    requires TotalMass(points) != 0.0
    ensures var total := TotalMass(points);
      var over, under, push := MassOn(points, line, Over) / total, MassOn(points, line, Under) / total,
          MassOn(points, line, Push) / total;
      var answer := TripleOf(MassOn(points, line, Under), MassOn(points, line, Push), total);
      && (ValidTriple(answer) <==> over >= 0.0 && under >= 0.0 && push >= 0.0)
      && (ValidTriple(answer) ==> answer == Triple(over, under, push))
  {
    TotalIsSides(points, line);
    SharesMakeOne(MassOn(points, line, Under), MassOn(points, line, Push), MassOn(points, line, Over),
        TotalMass(points));
  }

  lemma PartsOfWhole(n: nat, cu: nat, cp: nat, co: nat)
    requires n > 0 && n == cu + cp + co
    ensures Parts(cu, n) + Parts(cp, n) + Parts(co, n) == 1.0
  {
    PartsAdd(cu, cp, n);
    PartsAdd(cu + cp, co, n);
    assert Parts(n, n) == 1.0 by {
      PartsMakeShares(n, n);
      WholeShare(n);
    }
  }

  lemma PartsOfOne(n: nat, cu: nat, cp: nat, co: nat)
    requires n > 0 && n == cu + cp + co
    ensures Parts(cu, n) + Parts(cp, n) + Parts(co, n) == 1.0
    ensures Parts(cu, n) >= 0.0 && Parts(cp, n) >= 0.0 && Parts(co, n) >= 0.0
  {
    PartsOfWhole(n, cu, cp, co);
    PartsPositive(cu, n);
    PartsPositive(cp, n);
    PartsPositive(co, n);
  }

  lemma OverOne(u: real, p: real, o: real)
    requires u + p + o == 1.0 && u >= 0.0 && p >= 0.0 && o >= 0.0
    ensures TripleOf(u, p, 1.0) == Triple(o, u, p) && ValidTriple(Triple(o, u, p))
  {
  }

  ghost function Shares(values: seq<int>, line: real): Triple
    requires values != []
  {
    Triple(Share(CountSide(values, line, Over), |values|), Share(CountSide(values, line, Under), |values|),
           Share(CountSide(values, line, Push), |values|))
  }

  /** At any line the support of a sample gives each side its share of the sample. */
  lemma ProbabilitiesAreShares(points: seq<Point>, values: seq<int>, line: real)
    requires values != [] && IsSupport(points, values)
    ensures TotalMass(points) == 1.0
    ensures TripleOf(MassOn(points, line, Under), MassOn(points, line, Push), 1.0) == Shares(values, line)
    ensures ValidTriple(Shares(values, line))
  {
    var n, cu, cp, co := |values|, CountSide(values, line, Under), CountSide(values, line, Push),
        CountSide(values, line, Over);
    MassesAreShares(points, values, line, Under);
    MassesAreShares(points, values, line, Push);
    MassesAreShares(points, values, line, Over);
    SidesAddUp(values, line);
    TotalIsSides(points, line);
    PartsOfOne(n, cu, cp, co);
    OverOne(Parts(cu, n), Parts(cp, n), Parts(co, n));
    PartsMakeShares(cu, n);
    PartsMakeShares(cp, n);
    PartsMakeShares(co, n);
  }
}
