/** Lists and their order, as every other module needs them.

    The stable sort that `Array.prototype.sort` performs, why its result does not depend on the
    order of its input, lists without repetitions, filtering and mapping, and the order of
    strings. */
module Sorting {
  ghost predicate TotalPreorder<T(!new)>(le: (T, T) -> bool) {
    && (forall x, y :: le(x, y) || le(y, x))
    && (forall x, y, z :: le(x, y) && le(y, z) ==> le(x, z))
  }

  ghost predicate Sorted<T>(le: (T, T) -> bool, s: seq<T>) {
    forall i, j :: 0 <= i < j < |s| ==> le(s[i], s[j])
  }

  /** Elements of `s` that the order does not tell apart are the same. */
  ghost predicate Distinguished<T>(le: (T, T) -> bool, s: seq<T>) {
    forall i, j :: 0 <= i < |s| && 0 <= j < |s| && le(s[i], s[j]) && le(s[j], s[i]) ==> s[i] == s[j]
  }

  function Insert<T>(le: (T, T) -> bool, x: T, s: seq<T>): seq<T> {
    if s == [] then [x]
    else if le(x, s[0]) then [x] + s
    else [s[0]] + Insert(le, x, s[1..])
  }

  function SortBy<T>(le: (T, T) -> bool, s: seq<T>): seq<T> {
    if s == [] then [] else Insert(le, s[0], SortBy(le, s[1..]))
  }

  lemma {:induction false} InsertKeeps<T>(le: (T, T) -> bool, x: T, s: seq<T>)
    ensures multiset(Insert(le, x, s)) == multiset([x]) + multiset(s)
  {
    if s != [] && !le(x, s[0]) {
      InsertKeeps(le, x, s[1..]);
      assert s == [s[0]] + s[1..];
    }
  }

  lemma {:induction false} SortKeeps<T>(le: (T, T) -> bool, s: seq<T>)
    ensures multiset(SortBy(le, s)) == multiset(s)
    ensures |SortBy(le, s)| == |s|
  {
    if s != [] {
      SortKeeps(le, s[1..]);
      InsertKeeps(le, s[0], SortBy(le, s[1..]));
      assert s == [s[0]] + s[1..];
    }
    assert |multiset(SortBy(le, s))| == |multiset(s)|;
  }

  lemma {:induction false} InsertSorts<T(!new)>(le: (T, T) -> bool, x: T, s: seq<T>)
    requires TotalPreorder(le) && Sorted(le, s)
    ensures Sorted(le, Insert(le, x, s))
  {
    if s != [] && !le(x, s[0]) {
      InsertSorts(le, x, s[1..]);
      var rest := Insert(le, x, s[1..]);
      InsertKeeps(le, x, s[1..]);
      forall i | 0 <= i < |rest|
        ensures le(s[0], rest[i])
      {
        assert rest[i] in multiset(rest);
        assert rest[i] == x || rest[i] in s[1..];
      }
    }
  }

  lemma {:induction false} SortSorts<T(!new)>(le: (T, T) -> bool, s: seq<T>)
    requires TotalPreorder(le)
    ensures Sorted(le, SortBy(le, s))
  {
    if s != [] {
      SortSorts(le, s[1..]);
      InsertSorts(le, s[0], SortBy(le, s[1..]));
    }
  }

  lemma SameElements<T>(a: seq<T>, b: seq<T>)
    requires multiset(a) == multiset(b)
    ensures |a| == |b|
    ensures forall x :: x in a <==> x in b
  {
    assert |multiset(a)| == |multiset(b)|;
    assert forall x :: x in a <==> x in multiset(a);
    assert forall x :: x in b <==> x in multiset(b);
  }

  lemma HeadsAgree<T>(le: (T, T) -> bool, a: seq<T>, b: seq<T>)
    requires Sorted(le, a) && Sorted(le, b) && multiset(a) == multiset(b) && Distinguished(le, a) && a != []
    ensures b != [] && a[0] == b[0]
  {
    SameElements(a, b);
    assert a[0] in b && b[0] in a;
    var i :| 0 <= i < |a| && a[i] == b[0];
    var j :| 0 <= j < |b| && b[j] == a[0];
  }

  lemma TailElements<T>(a: seq<T>)
    requires a != []
    ensures multiset(a[1..]) == multiset(a) - multiset([a[0]])
  {
    assert a == [a[0]] + a[1..];
  }

  lemma WithoutOne<T>(a: seq<T>, j: nat)
    requires j < |a|
    ensures multiset(a[..j] + a[j + 1..]) == multiset(a) - multiset([a[j]])
  {
    assert a == a[..j] + [a[j]] + a[j + 1..];
  }

  /** Where a rearrangement has the first element; the rest rearranges the rest. */
  lemma Partner<T>(a: seq<T>, b: seq<T>) returns (j: nat)
    requires a != [] && multiset(a) == multiset(b)
    ensures j < |b| && b[j] == a[0] && multiset(a[1..]) == multiset(b[..j] + b[j + 1..])
  {
    SameElements(a, b);
    assert a[0] in b;
    j :| 0 <= j < |b| && b[j] == a[0];
    TailElements(a);
    WithoutOne(b, j);
  }

  lemma DistinguishedTail<T>(le: (T, T) -> bool, a: seq<T>)
    requires a != [] && Distinguished(le, a)
    ensures Distinguished(le, a[1..])
  {
    assert forall k :: 0 <= k < |a[1..]| ==> a[1..][k] == a[k + 1];
  }

  /** A sorted arrangement is unique when the order tells the elements apart. */
  lemma {:induction false} SortedIsUnique<T>(le: (T, T) -> bool, a: seq<T>, b: seq<T>)
    requires Sorted(le, a) && Sorted(le, b) && multiset(a) == multiset(b) && Distinguished(le, a)
    ensures a == b
  {
    SameElements(a, b);
    if a != [] {
      HeadsAgree(le, a, b);
      TailElements(a);
      TailElements(b);
      DistinguishedTail(le, a);
      SortedIsUnique(le, a[1..], b[1..]);
      assert a == [a[0]] + a[1..] && b == [b[0]] + b[1..];
    }
  }

  lemma DistinguishedAnyOrder<T>(le: (T, T) -> bool, a: seq<T>, b: seq<T>)
    requires multiset(a) == multiset(b) && Distinguished(le, a)
    ensures Distinguished(le, b)
  {
    SameElements(a, b);
    forall i, j | 0 <= i < |b| && 0 <= j < |b| && le(b[i], b[j]) && le(b[j], b[i])
      ensures b[i] == b[j]
    {
      assert b[i] in a && b[j] in a;
    }
  }

  /** Sorting forgets the order of the input. */
  lemma SortForgetsOrder<T(!new)>(le: (T, T) -> bool, a: seq<T>, b: seq<T>)
    requires TotalPreorder(le) && multiset(a) == multiset(b) && Distinguished(le, a)
    ensures SortBy(le, a) == SortBy(le, b)
  {
    SortKeeps(le, a);
    SortKeeps(le, b);
    SortSorts(le, a);
    SortSorts(le, b);
    DistinguishedAnyOrder(le, a, SortBy(le, a));
    SortedIsUnique(le, SortBy(le, a), SortBy(le, b));
  }

  /** Sorting what is sorted changes nothing, ties included. */
  lemma {:induction false} SortOfSorted<T>(le: (T, T) -> bool, s: seq<T>)
    requires Sorted(le, s)
    ensures SortBy(le, s) == s
  {
    if s != [] {
      SortOfSorted(le, s[1..]);
    }
  }

  // ---------------------------------------------------------------- keys

  /** No two elements have the same key. */
  ghost predicate Keyed<T, K>(key: T -> K, s: seq<T>) {
    forall i, j :: 0 <= i < j < |s| ==> key(s[i]) != key(s[j])
  }

  lemma {:induction false} KeyedOnce<T, K>(key: T -> K, s: seq<T>, x: T)
    requires Keyed(key, s)
    ensures multiset(s)[x] <= 1
  {
    if s != [] {
      KeyedOnce(key, s[1..], x);
      assert s == [s[0]] + s[1..];
      assert s[0] !in s[1..];
    }
  }

  lemma TwiceInside<T>(s: seq<T>, i: nat, j: nat)
    requires i < j < |s|
    ensures s[i] == s[j] ==> multiset(s)[s[j]] >= 2
  {
    assert s == s[..j] + [s[j]] + s[j + 1..];
    assert s[i] in s[..j];
  }

  lemma SameKeySameElement<T, K>(key: T -> K, s: seq<T>, x: T, y: T)
    requires Keyed(key, s) && x in s && y in s && key(x) == key(y)
    ensures x == y
  {
  }

  /** Keys stay unique under rearrangement. */
  /** Taking out an element that is not the first leaves the first and takes it out of the rest. */
  lemma WithoutLater<T>(s: seq<T>, j: nat)
    requires 0 < j < |s|
    ensures var less := s[..j] + s[j + 1..];
      less != [] && less[0] == s[0] && less[1..] == s[1..][..j - 1] + s[1..][j..]
  {
  }

  /** The same in terms of what is counted of the elements. */
  lemma Regrouped<T>(all: multiset<T>, first: multiset<T>, rest: multiset<T>, restLess: multiset<T>, out: multiset<T>)
    requires all == first + rest && rest == restLess + out
    ensures all == (first + restLess) + out
  {
  }

  lemma KeyedAnyOrder<T, K>(key: T -> K, a: seq<T>, b: seq<T>)
    requires multiset(a) == multiset(b) && Keyed(key, a)
    ensures Keyed(key, b)
  {
    SameElements(a, b);
    forall i, j | 0 <= i < j < |b|
      ensures key(b[i]) != key(b[j])
    {
      if key(b[i]) == key(b[j]) {
        SameKeySameElement(key, a, b[i], b[j]);
        KeyedOnce(key, a, b[j]);
        TwiceInside(b, i, j);
      }
    }
  }

  ghost predicate NoRepeats<T(!new)>(s: seq<T>) {
    forall i, j :: 0 <= i < j < |s| ==> s[i] != s[j]
  }

  lemma {:induction false} NoRepeatsOnce<T(!new)>(s: seq<T>, x: T)
    requires NoRepeats(s)
    ensures multiset(s)[x] == if x in s then 1 else 0
  {
    if s != [] {
      NoRepeatsOnce(s[1..], x);
      assert s == [s[0]] + s[1..];
      assert s[0] !in s[1..];
    }
  }

  lemma NoRepeatsAnyOrder<T(!new)>(a: seq<T>, b: seq<T>)
    requires multiset(a) == multiset(b) && NoRepeats(a)
    ensures NoRepeats(b)
  {
    forall i, j | 0 <= i < j < |b|
      ensures b[i] != b[j]
    {
      NoRepeatsOnce(a, b[j]);
      TwiceInside(b, i, j);
    }
  }

  /** Two sorted lists without repeats that hold the same elements are the same list. */
  lemma SameMembersSameList<T(!new)>(le: (T, T) -> bool, a: seq<T>, b: seq<T>)
    requires Sorted(le, a) && Sorted(le, b) && NoRepeats(a) && NoRepeats(b)
    requires forall x, y :: le(x, y) && le(y, x) ==> x == y
    requires forall x :: x in a <==> x in b
    ensures a == b
  {
    forall x
      ensures multiset(a)[x] == multiset(b)[x]
    {
      NoRepeatsOnce(a, x);
      NoRepeatsOnce(b, x);
    }
    SortedIsUnique(le, a, b);
  }

  // ---------------------------------------------------------------- filtering and mapping

  /** What `f` makes of the elements that are kept, in order. */
  function FilterMap<T, U>(keep: T -> bool, f: T -> U, s: seq<T>): seq<U> {
    if s == [] then []
    else
      var before := FilterMap(keep, f, s[..|s| - 1]);
      var last := s[|s| - 1];
      if keep(last) then before + [f(last)] else before
  }

  ghost function Own<T, U>(keep: T -> bool, f: T -> U, x: T): seq<U> {
    if keep(x) then [f(x)] else []
  }

  lemma FilterMapSnoc<T, U>(keep: T -> bool, f: T -> U, s: seq<T>, x: T)
    ensures FilterMap(keep, f, s + [x]) == FilterMap(keep, f, s) + Own(keep, f, x)
    ensures multiset(FilterMap(keep, f, s + [x])) == multiset(FilterMap(keep, f, s)) + multiset(Own(keep, f, x))
  {
    assert (s + [x])[..|s|] == s;
  }

  /** Taking out one element before the last. */
  lemma WithoutBeforeLast<T>(s: seq<T>, j: nat)
    requires j < |s| - 1
    ensures s[..j] + s[j + 1..] == (s[..|s| - 1][..j] + s[..|s| - 1][j + 1..]) + [s[|s| - 1]]
  {
  }

  lemma {:induction false} FilterMapWithout<T, U>(keep: T -> bool, f: T -> U, s: seq<T>, j: nat)
    requires j < |s|
    ensures multiset(FilterMap(keep, f, s))
         == multiset(FilterMap(keep, f, s[..j] + s[j + 1..])) + multiset(Own(keep, f, s[j]))
  {
    var n := |s| - 1;
    assert s == s[..n] + [s[n]];
    FilterMapSnoc(keep, f, s[..n], s[n]);
    if j == n {
      assert s[..j] + s[j + 1..] == s[..n];
    } else {
      FilterMapWithout(keep, f, s[..n], j);
      WithoutBeforeLast(s, j);
      FilterMapSnoc(keep, f, s[..n][..j] + s[..n][j + 1..], s[n]);
    }
  }

  lemma FilterMapTail<T, U>(keep: T -> bool, f: T -> U, s: seq<T>)
    requires s != []
    ensures multiset(FilterMap(keep, f, s)) == multiset(FilterMap(keep, f, s[1..])) + multiset(Own(keep, f, s[0]))
  {
    assert s[..0] + s[1..] == s[1..];
    FilterMapWithout(keep, f, s, 0);
  }

  lemma {:induction false} FilterMapAnyOrder<T, U>(keep: T -> bool, f: T -> U, a: seq<T>, b: seq<T>)
    requires multiset(a) == multiset(b)
    ensures multiset(FilterMap(keep, f, a)) == multiset(FilterMap(keep, f, b))
  {
    if a == [] {
      SameElements(a, b);
    } else {
      var j := Partner(a, b);
      var less := b[..j] + b[j + 1..];
      FilterMapAnyOrder(keep, f, a[1..], less);
      FilterMapWithout(keep, f, b, j);
      FilterMapTail(keep, f, a);
    }
  }

  // ---------------------------------------------------------------- text

  /** These are the places of the elements that are kept, in order, and what they are mapped to. */
  ghost predicate PlacesOf<T, U>(keep: T -> bool, f: T -> U, s: seq<T>, r: seq<U>, places: seq<nat>) {
    && |places| == |r|
    && (forall i :: 0 <= i < |places| ==> places[i] < |s| && keep(s[places[i]]) && r[i] == f(s[places[i]]))
    && (forall i, j :: 0 <= i < j < |places| ==> places[i] < places[j])
    && (forall k: nat :: k < |s| && keep(s[k]) ==> k in places)
  }

  lemma PlacesGrow<T, U>(keep: T -> bool, f: T -> U, s: seq<T>, x: T, r: seq<U>, places: seq<nat>)
    requires PlacesOf(keep, f, s, r, places)
    ensures if keep(x) then PlacesOf(keep, f, s + [x], r + [f(x)], places + [|s|])
        else PlacesOf(keep, f, s + [x], r, places)
  {
    if keep(x) {
      var more := places + [|s|];
      forall k: nat | k < |s| + 1 && keep((s + [x])[k])
        ensures k in more
      {
        assert more[|places|] == |s|;
      }
    }
  }

  lemma {:induction false} FilterMapPlaces<T, U>(keep: T -> bool, f: T -> U, s: seq<T>) returns (places: seq<nat>)
    ensures PlacesOf(keep, f, s, FilterMap(keep, f, s), places)
  {
    if s == [] {
      places := [];
    } else {
      var before, x := s[..|s| - 1], s[|s| - 1];
      places := FilterMapPlaces(keep, f, before);
      PlacesGrow(keep, f, before, x, FilterMap(keep, f, before), places);
      FilterMapSnoc(keep, f, before, x);
      assert s == before + [x];
      if keep(x) {
        places := places + [|before|];
      }
    }
  }

  // ---------------------------------------------------------------- how many elements are such

  ghost function HowMany<T>(such: T -> bool, s: seq<T>): nat {
    |set k: nat | k < |s| && such(s[k])|
  }

  lemma NoneAreSuch<T>(such: T -> bool)
    ensures HowMany(such, []) == 0
  {
    var none: seq<T> := [];
    assert (set k: nat | k < |none| && such(none[k])) == {};
  }

  lemma HowManySnoc<T>(such: T -> bool, s: seq<T>, x: T)
    ensures HowMany(such, s + [x]) == HowMany(such, s) + if such(x) then 1 else 0
  {
    var before, after := set k: nat | k < |s| && such(s[k]), set k: nat | k < |s + [x]| && such((s + [x])[k]);
    assert after == if such(x) then before + {|s|} else before;
  }

  lemma HowManyInit<T>(such: T -> bool, s: seq<T>)
    requires s != []
    ensures HowMany(such, s) == HowMany(such, s[..|s| - 1]) + if such(s[|s| - 1]) then 1 else 0
  {
    HowManySnoc(such, s[..|s| - 1], s[|s| - 1]);
    assert s == s[..|s| - 1] + [s[|s| - 1]];
  }

  lemma {:induction false} HowManyTail<T>(such: T -> bool, s: seq<T>)
    requires s != []
    ensures HowMany(such, s) == HowMany(such, s[1..]) + if such(s[0]) then 1 else 0
  {
    HowManyInit(such, s);
    if |s| == 1 {
      assert s[..0] == s[1..];
    } else {
      HowManyTail(such, s[..|s| - 1]);
      HowManyInit(such, s[1..]);
      assert s[1..][..|s| - 2] == s[..|s| - 1][1..];
    }
  }

  /** A string, as its UTF-16 code units. */
  type Text = seq<nat>

  /** Text is compared by code units, as the relational operators on strings do. */
  function TextLe(a: Text, b: Text): bool {
    if a == [] then true
    else if b == [] then false
    else if a[0] != b[0] then a[0] < b[0]
    else TextLe(a[1..], b[1..])
  }

  /** A text that is more than white space. */
  predicate Named(t: Text) {
    exists i :: 0 <= i < |t| && t[i] > 32
  }

  lemma NamedJoins(a: Text, b: Text, unit: nat)
    ensures !Named([]) && (Named([unit]) <==> unit > 32)
    ensures Named(a + b) <==> Named(a) || Named(b)
  {
    assert Named([unit]) <==> [unit][0] > 32;
    if Named(a) {
      var i :| 0 <= i < |a| && a[i] > 32;
      assert (a + b)[i] > 32;
    }
    if Named(b) {
      var i :| 0 <= i < |b| && b[i] > 32;
      assert (a + b)[|a| + i] > 32;
    }
  }

  lemma FirstUnits(a: Text, b: Text, i: nat)
    requires a != [] && b != []
    ensures i > 0 && FirstSmaller(a, b, i) ==> a[0] == b[0]
  {
    if i > 0 && FirstSmaller(a, b, i) {
      assert a[0] == a[..i][0] && b[0] == b[..i][0];
    }
  }

  /** Of two texts the smaller is a prefix of the other, or has the smaller unit where they first differ. */
  lemma {:induction false} TextLeIs(a: Text, b: Text)
    ensures TextLe(a, b) <==> a <= b || exists i: nat :: FirstSmaller(a, b, i)
  {
    if a != [] && b != [] && a[0] == b[0] {
      TextLeIs(a[1..], b[1..]);
      assert a <= b <==> a[1..] <= b[1..];
      forall i: nat | FirstSmaller(a[1..], b[1..], i)
        ensures FirstSmaller(a, b, i + 1)
      {
        assert a[..i + 1] == [a[0]] + a[1..][..i] && b[..i + 1] == [b[0]] + b[1..][..i];
      }
      forall i: nat | FirstSmaller(a, b, i)
        ensures i > 0 && FirstSmaller(a[1..], b[1..], i - 1)
      {
        assert a[1..][..i - 1] == a[..i][1..] && b[1..][..i - 1] == b[..i][1..];
      }
    } else if a != [] && b != [] {
      assert FirstSmaller(a, b, 0) <==> a[0] < b[0];
      forall i: nat | FirstSmaller(a, b, i)
        ensures i == 0
      {
        FirstUnits(a, b, i);
      }
    }
  }

  ghost predicate FirstSmaller(a: Text, b: Text, i: nat) {
    i < |a| && i < |b| && a[..i] == b[..i] && a[i] < b[i]
  }

  lemma {:induction false} TextTotal(a: seq<nat>, b: seq<nat>)
    ensures TextLe(a, b) || TextLe(b, a)
    ensures TextLe(a, b) && TextLe(b, a) ==> a == b
  {
    if a != [] && b != [] && a[0] == b[0] {
      TextTotal(a[1..], b[1..]);
    }
  }

  lemma {:induction false} TextTransitive(a: seq<nat>, b: seq<nat>, c: seq<nat>)
    requires TextLe(a, b) && TextLe(b, c)
    ensures TextLe(a, c)
  {
    if a != [] && b != [] && c != [] && a[0] == b[0] == c[0] {
      TextTransitive(a[1..], b[1..], c[1..]);
    }
  }

  lemma TextOrder()
    ensures forall a, b :: TextLe(a, b) || TextLe(b, a)
    ensures forall a, b :: TextLe(a, b) && TextLe(b, a) ==> a == b
    ensures forall a, b, c :: TextLe(a, b) && TextLe(b, c) ==> TextLe(a, c)
  {
    forall a, b
      ensures TextLe(a, b) || TextLe(b, a)
      ensures TextLe(a, b) && TextLe(b, a) ==> a == b
    {
      TextTotal(a, b);
    }
    forall a, b, c | TextLe(a, b) && TextLe(b, c)
      ensures TextLe(a, c)
    {
      TextTransitive(a, b, c);
    }
  }
}
