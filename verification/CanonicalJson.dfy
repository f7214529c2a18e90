/** The canonical printer that import planning compares and fingerprints values with. */
module CanonicalJson {
  // Object keys are sorted, everything else is as `JSON.stringify` writes it.  Strings are UTF-16
  // code units, numbers are integers.

  import opened Sorting
  import opened Wrappers

  datatype Json =
    | Null
    | Bool(b: bool)
    | Number(n: int)
    | Str(s: Text)
    | Arr(items: seq<Json>)
    | Obj(members: seq<Member>)

  datatype Member = Member(key: Text, value: Json)

  const QUOTE := 34
  const COMMA := 44
  const MINUS := 45
  const ZERO := 48
  const COLON := 58
  const OPEN_LIST := 91
  const BACKSLASH := 92
  const CLOSE_LIST := 93
  const OPEN_OBJECT := 123
  const CLOSE_OBJECT := 125

  // ---------------------------------------------------------------- scalars

  function Digits(n: nat): Text {
    if n < 10 then [ZERO + n] else Digits(n / 10) + [ZERO + n % 10]
  }

  function PrintInt(n: int): Text {
    if n < 0 then [MINUS] + Digits(-n) else Digits(n)
  }

  predicate IsHigh(unit: nat) {
    0xD800 <= unit < 0xDC00
  }

  predicate IsLow(unit: nat) {
    0xDC00 <= unit < 0xE000
  }

  function Hex(nibble: nat): nat {
    if nibble < 10 then ZERO + nibble else 87 + nibble
  }

  /** A unit that cannot stand for itself: quote, backslash, control or lone surrogate. */
  function EscapeUnit(unit: nat): Text {
    if unit == QUOTE then [BACKSLASH, QUOTE]
    else if unit == BACKSLASH then [BACKSLASH, BACKSLASH]
    else if unit == 8 then [BACKSLASH, 98]
    else if unit == 9 then [BACKSLASH, 116]
    else if unit == 10 then [BACKSLASH, 110]
    else if unit == 12 then [BACKSLASH, 102]
    else if unit == 13 then [BACKSLASH, 114]
    else if unit < 32 || IsHigh(unit) || IsLow(unit) then
      [BACKSLASH, 117, Hex(unit / 4096), Hex(unit / 256 % 16), Hex(unit / 16 % 16), Hex(unit % 16)]
    else [unit]
  }

  function Escape(s: Text): Text {
    if s == [] then []
    else if IsHigh(s[0]) && |s| > 1 && IsLow(s[1]) then s[..2] + Escape(s[2..])
    else EscapeUnit(s[0]) + Escape(s[1..])
  }

  function Quote(s: Text): Text {
    [QUOTE] + Escape(s) + [QUOTE]
  }

  // ---------------------------------------------------------------- the printer

  function Join(parts: seq<Text>): Text {
    if parts == [] then []
    else if |parts| == 1 then parts[0]
    else parts[0] + [COMMA] + Join(parts[1..])
  }

  datatype Printed = Printed(key: Text, text: Text)

  function KeyLe(a: Printed, b: Printed): bool {
    TextLe(a.key, b.key)
  }

  function MemberText(p: Printed): Text {
    Quote(p.key) + [COLON] + p.text
  }

  function MemberTexts(parts: seq<Printed>): seq<Text> {
    if parts == [] then [] else [MemberText(parts[0])] + MemberTexts(parts[1..])
  }

  function Canonical(v: Json): Text
    decreases v, 1
  {
    match v
    case Null => [110, 117, 108, 108]
    case Bool(b) => if b then [116, 114, 117, 101] else [102, 97, 108, 115, 101]
    case Number(n) => PrintInt(n)
    case Str(s) => Quote(s)
    case Arr(items) => [OPEN_LIST] + Join(CanonicalItems(items)) + [CLOSE_LIST]
    case Obj(members) =>
      [OPEN_OBJECT] + Join(MemberTexts(SortBy(KeyLe, CanonicalMembers(members)))) + [CLOSE_OBJECT]
  }

  function CanonicalItems(items: seq<Json>): (texts: seq<Text>)
    ensures |texts| == |items|
    decreases items, 0
  {
    if items == [] then [] else [Canonical(items[0])] + CanonicalItems(items[1..])
  }

  function CanonicalMembers(members: seq<Member>): (parts: seq<Printed>)
    ensures |parts| == |members|
    decreases members, 0
  {
    if members == [] then []
    else [Printed(members[0].key, Canonical(members[0].value))] + CanonicalMembers(members[1..])
  }

  /** The comparison the planner makes. */
  predicate Same(a: Json, b: Json) {
    Canonical(a) == Canonical(b)
  }

  // ---------------------------------------------------------------- what it should mean

  ghost predicate DistinctKeys(members: seq<Member>) {
    forall i, j :: 0 <= i < j < |members| ==> members[i].key != members[j].key
  }

  /** A JSON value: no object holds a key twice. */
  ghost predicate WellFormed(v: Json) {
    match v
    case Arr(items) => forall i :: 0 <= i < |items| ==> WellFormed(items[i])
    case Obj(members) =>
      DistinctKeys(members) && forall i :: 0 <= i < |members| ==> WellFormed(members[i].value)
    case _ => true
  }

  /** Structural equality: arrays position by position, objects key by key. */
  ghost predicate Equal(a: Json, b: Json) {
    match a
    case Arr(items) =>
      b.Arr? && |items| == |b.items| && forall i :: 0 <= i < |items| ==> Equal(items[i], b.items[i])
    case Obj(members) =>
      && b.Obj?
      && |members| == |b.members|
      && forall i :: 0 <= i < |members| ==> HasMember(members[i], b.members)
    case _ => a == b
  }

  ghost predicate HasMember(m: Member, others: seq<Member>) {
    exists j :: 0 <= j < |others| && m.key == others[j].key && Equal(m.value, others[j].value)
  }

  // ---------------------------------------------------------------- normal forms

  function MemberLe(a: Member, b: Member): bool {
    TextLe(a.key, b.key)
  }

  ghost function Norm(v: Json): Json
    decreases v, 1
  {
    match v
    case Arr(items) => Arr(NormItems(items))
    case Obj(members) => Obj(SortBy(MemberLe, NormMembers(members)))
    case _ => v
  }

  ghost function NormItems(items: seq<Json>): (r: seq<Json>)
    ensures |r| == |items|
    ensures forall i :: 0 <= i < |items| ==> r[i] == Norm(items[i])
    decreases items, 0
  {
    if items == [] then [] else [Norm(items[0])] + NormItems(items[1..])
  }

  ghost function NormMembers(members: seq<Member>): (r: seq<Member>)
    ensures |r| == |members|
    ensures forall i :: 0 <= i < |members| ==> r[i] == Member(members[i].key, Norm(members[i].value))
    decreases members, 0
  {
    if members == [] then []
    else [Member(members[0].key, Norm(members[0].value))] + NormMembers(members[1..])
  }

  // ---------------------------------------------------------------- printing without sorting

  ghost function Print(v: Json): Text
    decreases v, 1
  {
    match v
    case Null => [110, 117, 108, 108]
    case Bool(b) => if b then [116, 114, 117, 101] else [102, 97, 108, 115, 101]
    case Number(n) => PrintInt(n)
    case Str(s) => Quote(s)
    case Arr(items) => [OPEN_LIST] + Join(PrintItems(items)) + [CLOSE_LIST]
    case Obj(members) => [OPEN_OBJECT] + Join(MemberTexts(PrintMembers(members))) + [CLOSE_OBJECT]
  }

  ghost function PrintItems(items: seq<Json>): (texts: seq<Text>)
    ensures |texts| == |items|
    decreases items, 0
  {
    if items == [] then [] else [Print(items[0])] + PrintItems(items[1..])
  }

  ghost function PrintMembers(members: seq<Member>): (parts: seq<Printed>)
    ensures |parts| == |members|
    decreases members, 0
  {
    if members == [] then []
    else [Printed(members[0].key, Print(members[0].value))] + PrintMembers(members[1..])
  }

  lemma {:induction false} InsertPrinted(m: Member, members: seq<Member>)
    ensures PrintMembers(Insert(MemberLe, m, members))
         == Insert(KeyLe, Printed(m.key, Print(m.value)), PrintMembers(members))
  {
    if members != [] {
      InsertPrinted(m, members[1..]);
    }
  }

  lemma {:induction false} SortPrinted(members: seq<Member>)
    ensures PrintMembers(SortBy(MemberLe, members)) == SortBy(KeyLe, PrintMembers(members))
  {
    if members != [] {
      SortPrinted(members[1..]);
      InsertPrinted(members[0], SortBy(MemberLe, members[1..]));
    }
  }

  /** Canonical printing is plain printing of the normal form. */
  lemma {:induction false} CanonicalPrintsNorm(v: Json)
    ensures Canonical(v) == Print(Norm(v))
    decreases v, 1
  {
    match v
    case Arr(items) => ItemsPrintNorm(items);
    case Obj(members) =>
      MembersPrintNorm(members);
      SortPrinted(NormMembers(members));
    case _ =>
  }

  lemma {:induction false} ItemsPrintNorm(items: seq<Json>)
    ensures CanonicalItems(items) == PrintItems(NormItems(items))
    decreases items, 0
  {
    if items != [] {
      CanonicalPrintsNorm(items[0]);
      ItemsPrintNorm(items[1..]);
    }
  }

  lemma {:induction false} MembersPrintNorm(members: seq<Member>)
    ensures CanonicalMembers(members) == PrintMembers(NormMembers(members))
    decreases members, 0
  {
    if members != [] {
      CanonicalPrintsNorm(members[0].value);
      MembersPrintNorm(members[1..]);
    }
  }

  // ---------------------------------------------------------------- numbers read back

  ghost function Value(digits: Text): int {
    if digits == [] then 0 else 10 * Value(digits[..|digits| - 1]) + digits[|digits| - 1] - ZERO
  }

  lemma {:induction false} DigitsReadBack(n: nat)
    ensures Value(Digits(n)) == n
    ensures Digits(n) != [] && forall i :: 0 <= i < |Digits(n)| ==> ZERO <= Digits(n)[i] < ZERO + 10
  {
    if n < 10 {
      assert Value([]) == 0;
    } else {
      DigitsReadBack(n / 10);
      assert Digits(n)[..|Digits(n)| - 1] == Digits(n / 10);
    }
  }

  /** What may follow a value inside a larger text. */
  ghost predicate Ends(rest: Text) {
    rest == [] || rest[0] == COMMA || rest[0] == CLOSE_LIST || rest[0] == CLOSE_OBJECT
  }

  lemma NextCharacter(a: Text, b: Text, p: Text, q: Text)
    requires a + p == b + q && |a| < |b|
    ensures p != [] && p[0] == b[|a|]
  {
    assert p == (a + p)[|a|..];
    assert (b + q)[|a|] == b[|a|];
  }

  lemma DigitsNotLonger(m: nat, n: nat, p: Text, q: Text)
    requires Ends(p) && Digits(m) + p == Digits(n) + q
    ensures |Digits(n)| <= |Digits(m)|
  {
    DigitsReadBack(m);
    DigitsReadBack(n);
    if |Digits(m)| < |Digits(n)| {
      NextCharacter(Digits(m), Digits(n), p, q);
    }
  }

  lemma SplitAt(a: Text, b: Text, p: Text, q: Text)
    requires a + p == b + q && |a| == |b|
    ensures a == b && p == q
  {
    assert a == (a + p)[..|a|] && b == (b + q)[..|b|];
    assert p == (a + p)[|a|..] && q == (b + q)[|b|..];
  }

  lemma Regroup(a: Text, b: Text, c: Text)
    ensures (a + b) + c == a + (b + c)
  {
  }

  lemma DigitsInjective(m: nat, n: nat, p: Text, q: Text)
    requires Ends(p) && Ends(q) && Digits(m) + p == Digits(n) + q
    ensures m == n && p == q
  {
    DigitsNotLonger(m, n, p, q);
    DigitsNotLonger(n, m, q, p);
    SplitAt(Digits(m), Digits(n), p, q);
    DigitsReadBack(m);
    DigitsReadBack(n);
  }

  lemma SignShows(n: int)
    ensures PrintInt(n) != [] && (PrintInt(n)[0] == MINUS <==> n < 0)
  {
    DigitsReadBack(if n < 0 then -n else n);
  }

  lemma IntInjective(m: int, n: int, p: Text, q: Text)
    requires Ends(p) && Ends(q) && PrintInt(m) + p == PrintInt(n) + q
    ensures m == n && p == q
  {
    SignShows(m);
    SignShows(n);
    assert (PrintInt(m) + p)[0] == PrintInt(m)[0] && (PrintInt(n) + q)[0] == PrintInt(n)[0];
    if m < 0 {
      Regroup([MINUS], Digits(-m), p);
      Regroup([MINUS], Digits(-n), q);
      SplitAt([MINUS], [MINUS], Digits(-m) + p, Digits(-n) + q);
      DigitsInjective(-m, -n, p, q);
    } else {
      DigitsInjective(m, n, p, q);
    }
  }

  // ---------------------------------------------------------------- strings read back

  /** A hexadecimal digit in lower case. */
  ghost function FromHex(c: nat): Option<nat> {
    if 48 <= c <= 57 then Some(c - 48) else if 97 <= c <= 102 then Some(c - 87) else None
  }

  /** The unit that four hexadecimal digits write. */
  ghost function FromHex4(text: Text): Option<nat>
    requires |text| >= 4
  {
    if FromHex(text[0]).None? || FromHex(text[1]).None? || FromHex(text[2]).None? || FromHex(text[3]).None? then None
    else
      Some(4096 * FromHex(text[0]).value + 256 * FromHex(text[1]).value + 16 * FromHex(text[2]).value + FromHex(text[3]).value)
  }

  /** What the unit after a backslash stands for in a string, by section 7 of RFC 8259. */
  ghost function ShortEscape(c: nat): Option<nat> {
    if c == 34 || c == 92 || c == 47 then Some(c)
    else if c == 98 then Some(8)
    else if c == 102 then Some(12)
    else if c == 110 then Some(10)
    else if c == 114 then Some(13)
    else if c == 116 then Some(9)
    else None
  }

  /** One unit of a string, and the text after it. */
  ghost function ReadUnit(text: Text): (r: Option<(nat, Text)>)
    ensures r.Some? ==> |r.value.1| < |text|
  {
    if text == [] || text[0] < 32 || text[0] == 34 then None
    else if text[0] != 92 then Some((text[0], text[1..]))
    else if |text| > 1 && ShortEscape(text[1]).Some? then Some((ShortEscape(text[1]).value, text[2..]))
    else if |text| > 5 && text[1] == 117 && FromHex4(text[2..]).Some? then Some((FromHex4(text[2..]).value, text[6..]))
    else None
  }

  /** A string up to its closing quote, and the text after that. */
  ghost function ReadString(text: Text): Option<(Text, Text)>
    decreases |text|
  {
    if text != [] && text[0] == 34 then Some(([], text[1..]))
    else
      var first := ReadUnit(text);
      if first.None? then None
      else
        var rest := ReadString(first.value.1);
        if rest.None? then None else Some(([first.value.0] + rest.value.0, rest.value.1))
  }

  lemma Nibbles(u: nat)
    ensures u == 4096 * (u / 4096) + 256 * (u / 256 % 16) + 16 * (u / 16 % 16) + u % 16
  {
    assert u / 256 == 16 * (u / 4096) + u / 256 % 16 by {
      assert u / 4096 == u / 256 / 16;
    }
    assert u / 16 == 16 * (u / 256) + u / 16 % 16 by {
      assert u / 256 == u / 16 / 16;
    }
  }

  lemma HexReadsBack(u: nat)
    requires u < 65536
    ensures FromHex4([Hex(u / 4096), Hex(u / 256 % 16), Hex(u / 16 % 16), Hex(u % 16)]) == Some(u)
  {
    Nibbles(u);
    NibbleReadsBack(u / 4096);
    NibbleReadsBack(u / 256 % 16);
    NibbleReadsBack(u / 16 % 16);
    NibbleReadsBack(u % 16);
  }

  lemma NibbleReadsBack(n: nat)
    requires n < 16
    ensures FromHex(Hex(n)) == Some(n)
  {
  }

  /** A unit stands for itself exactly if it is no control, quote, backslash or surrogate. */
  lemma StandsForItself(unit: nat)
    ensures EscapeUnit(unit) == [unit] <==>
      unit >= 32 && unit != 34 && unit != 92 && !(0xD800 <= unit <= 0xDFFF)
  {
  }

  lemma UnitReadsBack(unit: nat, rest: Text)
    ensures ReadUnit(EscapeUnit(unit) + rest) == Some((unit, rest))
    ensures EscapeUnit(unit)[0] != QUOTE
  {
    var text := EscapeUnit(unit) + rest;
    if |EscapeUnit(unit)| == 6 {
      HexReadsBack(unit);
      assert text[2..][..4] == [Hex(unit / 4096), Hex(unit / 256 % 16), Hex(unit / 16 % 16), Hex(unit % 16)];
      assert text[6..] == rest;
    } else if |EscapeUnit(unit)| == 2 {
      assert text[2..] == rest;
    } else {
      assert text[1..] == rest;
    }
  }

  lemma UnitThen(text: Text, unit: nat, rest: Text, s: Text, p: Text)
    requires text != [] && text[0] != QUOTE && ReadUnit(text) == Some((unit, rest)) && ReadString(rest) == Some((s, p))
    ensures ReadString(text) == Some(([unit] + s, p))
  {
  }

  lemma PlainUnit(unit: nat, rest: Text)
    requires IsHigh(unit) || IsLow(unit)
    ensures ReadUnit([unit] + rest) == Some((unit, rest))
  {
    assert ([unit] + rest)[1..] == rest;
  }

  lemma PairThen(high: nat, low: nat, rest: Text, s: Text, p: Text)
    requires IsHigh(high) && IsLow(low) && ReadString(rest) == Some((s, p))
    ensures ReadString([high] + ([low] + rest)) == Some(([high] + ([low] + s), p))
  {
    PlainUnit(low, rest);
    UnitThen([low] + rest, low, rest, s, p);
    PlainUnit(high, [low] + rest);
    UnitThen([high] + ([low] + rest), high, [low] + rest, [low] + s, p);
  }

  lemma EscapedThen(unit: nat, rest: Text, s: Text, p: Text)
    requires ReadString(rest) == Some((s, p))
    ensures ReadString(EscapeUnit(unit) + rest) == Some(([unit] + s, p))
  {
    UnitReadsBack(unit, rest);
    UnitThen(EscapeUnit(unit) + rest, unit, rest, s, p);
  }

  ghost predicate PairFirst(s: Text) {
    |s| > 1 && IsHigh(s[0]) && IsLow(s[1])
  }

  lemma PairJoins(high: nat, low: nat, rest: Text, close: Text)
    ensures ([high, low] + rest) + close == [high] + ([low] + (rest + close))
  {
    Regroup([high, low], rest, close);
    Regroup([high], [low], rest + close);
    assert [high, low] == [high] + [low];
  }

  lemma PairParts(s: Text, close: Text)
    requires PairFirst(s)
    ensures Escape(s) + close == [s[0]] + ([s[1]] + (Escape(s[2..]) + close))
    ensures s == [s[0]] + ([s[1]] + s[2..])
  {
    assert s[..2] == [s[0], s[1]];
    PairJoins(s[0], s[1], Escape(s[2..]), close);
  }

  lemma UnitParts(s: Text, close: Text)
    requires s != [] && !PairFirst(s)
    ensures Escape(s) + close == EscapeUnit(s[0]) + (Escape(s[1..]) + close)
    ensures s == [s[0]] + s[1..]
  {
    Regroup(EscapeUnit(s[0]), Escape(s[1..]), close);
  }

  lemma Closing(p: Text)
    ensures Escape([]) + ([QUOTE] + p) == [QUOTE] + p
    ensures ReadString([QUOTE] + p) == Some(([], p))
  {
    assert ([QUOTE] + p)[1..] == p;
  }

  /** A reader of strings gets back what was escaped, whatever follows the closing quote. */
  lemma {:induction false} StringReadsBack(s: Text, p: Text)
    ensures ReadString(Escape(s) + ([QUOTE] + p)) == Some((s, p))
  {
    if s == [] {
      Closing(p);
    } else {
      if PairFirst(s) {
        PairParts(s, [QUOTE] + p);
        StringReadsBack(s[2..], p);
        PairThen(s[0], s[1], Escape(s[2..]) + ([QUOTE] + p), s[2..], p);
      } else {
        UnitParts(s, [QUOTE] + p);
        StringReadsBack(s[1..], p);
        EscapedThen(s[0], Escape(s[1..]) + ([QUOTE] + p), s[1..], p);
      }
    }
  }

  lemma EscapeInjective(s: Text, t: Text, p: Text, q: Text)
    requires Escape(s) + ([QUOTE] + p) == Escape(t) + ([QUOTE] + q)
    ensures s == t && p == q
  {
    StringReadsBack(s, p);
    StringReadsBack(t, q);
  }

  lemma QuoteThen(s: Text, p: Text)
    ensures Quote(s) + p == [QUOTE] + (Escape(s) + ([QUOTE] + p))
  {
    Regroup([QUOTE] + Escape(s), [QUOTE], p);
    Regroup([QUOTE], Escape(s), [QUOTE] + p);
  }

  lemma QuoteInjective(s: Text, t: Text, p: Text, q: Text)
    requires Quote(s) + p == Quote(t) + q
    ensures s == t && p == q
  {
    QuoteThen(s, p);
    QuoteThen(t, q);
    SplitAt([QUOTE], [QUOTE], Escape(s) + ([QUOTE] + p), Escape(t) + ([QUOTE] + q));
    EscapeInjective(s, t, p, q);
  }

  // ---------------------------------------------------------------- values read back

  /** A printed value starts with a character that tells which kind of value it is. */
  lemma Starts(v: Json)
    ensures Print(v) != []
    ensures Print(v)[0] == 110 <==> v.Null?
    ensures Print(v)[0] == 116 <==> v == Bool(true)
    ensures Print(v)[0] == 102 <==> v == Bool(false)
    ensures Print(v)[0] == MINUS || ZERO <= Print(v)[0] < ZERO + 10 <==> v.Number?
    ensures Print(v)[0] == QUOTE <==> v.Str?
    ensures Print(v)[0] == OPEN_LIST <==> v.Arr?
    ensures Print(v)[0] == OPEN_OBJECT <==> v.Obj?
    ensures !Ends(Print(v))
  {
    if v.Number? {
      DigitsReadBack(if v.n < 0 then -v.n else v.n);
    }
  }

  lemma SameKind(v: Json, w: Json, p: Text, q: Text)
    requires Print(v) + p == Print(w) + q
    ensures v.Null? == w.Null? && v.Bool? == w.Bool? && v.Number? == w.Number?
    ensures v.Str? == w.Str? && v.Arr? == w.Arr? && v.Obj? == w.Obj?
    ensures v.Bool? ==> v == w
  {
    Starts(v);
    Starts(w);
    assert (Print(v) + p)[0] == Print(v)[0] && (Print(w) + q)[0] == Print(w)[0];
  }

  /** The text of a list's items up to and including the closing bracket. */
  ghost function ItemsTail(items: seq<Json>): Text {
    Join(PrintItems(items)) + [CLOSE_LIST]
  }

  ghost function MembersTail(members: seq<Member>): Text {
    Join(MemberTexts(PrintMembers(members))) + [CLOSE_OBJECT]
  }

  /** What follows the first item: a comma and the others, or the bracket. */
  ghost function AfterItem(items: seq<Json>): Text
    requires items != []
  {
    if |items| == 1 then [CLOSE_LIST] else [COMMA] + ItemsTail(items[1..])
  }

  ghost function AfterMember(members: seq<Member>): Text
    requires members != []
  {
    if |members| == 1 then [CLOSE_OBJECT] else [COMMA] + MembersTail(members[1..])
  }

  lemma JoinStep(parts: seq<Text>, close: Text)
    requires parts != []
    ensures Join(parts) + close
         == parts[0] + (if |parts| == 1 then close else [COMMA] + (Join(parts[1..]) + close))
  {
    if |parts| > 1 {
      Regroup(parts[0] + [COMMA], Join(parts[1..]), close);
      Regroup(parts[0], [COMMA], Join(parts[1..]) + close);
    }
  }

  lemma ItemsTailStep(items: seq<Json>)
    requires items != []
    ensures ItemsTail(items) == Print(items[0]) + AfterItem(items)
  {
    assert PrintItems(items)[1..] == PrintItems(items[1..]);
    JoinStep(PrintItems(items), [CLOSE_LIST]);
  }

  lemma MembersTailStep(members: seq<Member>)
    requires members != []
    ensures MembersTail(members)
         == Quote(members[0].key) + ([COLON] + (Print(members[0].value) + AfterMember(members)))
  {
    var parts := PrintMembers(members);
    MemberCount(parts);
    JoinStep(MemberTexts(parts), [CLOSE_OBJECT]);
    assert MemberTexts(parts)[1..] == MemberTexts(PrintMembers(members[1..]));
    Regroup(Quote(parts[0].key) + [COLON], parts[0].text, AfterMember(members));
    Regroup(Quote(parts[0].key), [COLON], parts[0].text + AfterMember(members));
  }

  lemma {:induction false} MemberCount(parts: seq<Printed>)
    ensures |MemberTexts(parts)| == |parts|
  {
    if parts != [] {
      MemberCount(parts[1..]);
    }
  }

  /** Printing loses nothing, whatever may follow the value. */
  lemma {:induction false} PrintInjective(v: Json, w: Json, p: Text, q: Text)
    requires Ends(p) && Ends(q) && Print(v) + p == Print(w) + q
    ensures v == w && p == q
    decreases v, 1
  {
    SameKind(v, w, p, q);
    match v
    case Null => SplitAt(Print(v), Print(w), p, q);
    case Bool(_) => SplitAt(Print(v), Print(w), p, q);
    case Number(n) => IntInjective(n, w.n, p, q);
    case Str(s) => QuoteInjective(s, w.s, p, q);
    case Arr(items) =>
      assert Print(v) + p == [OPEN_LIST] + (ItemsTail(items) + p);
      assert Print(w) + q == [OPEN_LIST] + (ItemsTail(w.items) + q);
      SplitAt([OPEN_LIST], [OPEN_LIST], ItemsTail(items) + p, ItemsTail(w.items) + q);
      ItemsInjective(items, w.items, p, q);
    case Obj(members) =>
      assert Print(v) + p == [OPEN_OBJECT] + (MembersTail(members) + p);
      assert Print(w) + q == [OPEN_OBJECT] + (MembersTail(w.members) + q);
      SplitAt([OPEN_OBJECT], [OPEN_OBJECT], MembersTail(members) + p, MembersTail(w.members) + q);
      MembersInjective(members, w.members, p, q);
  }

  /** Only an empty list closes at once. */
  lemma ItemsStart(items: seq<Json>, p: Text)
    ensures (ItemsTail(items) + p)[0] == CLOSE_LIST <==> items == []
  {
    if items != [] {
      ItemsTailStep(items);
      Starts(items[0]);
    }
  }

  lemma {:induction false} ItemsInjective(xs: seq<Json>, ys: seq<Json>, p: Text, q: Text)
    requires ItemsTail(xs) + p == ItemsTail(ys) + q
    ensures xs == ys && p == q
    decreases xs, 0
  {
    ItemsStart(xs, p);
    ItemsStart(ys, q);
    if xs == [] {
      assert ItemsTail([]) == [CLOSE_LIST];
      SplitAt([CLOSE_LIST], [CLOSE_LIST], p, q);
    } else {
      ItemsTailStep(xs);
      ItemsTailStep(ys);
      var p', q' := AfterItem(xs) + p, AfterItem(ys) + q;
      Regroup(Print(xs[0]), AfterItem(xs), p);
      Regroup(Print(ys[0]), AfterItem(ys), q);
      PrintInjective(xs[0], ys[0], p', q');
      AfterItemsInjective(xs, ys, p, q);
      assert xs == [xs[0]] + xs[1..] && ys == [ys[0]] + ys[1..];
    }
  }

  lemma {:induction false} AfterItemsInjective(xs: seq<Json>, ys: seq<Json>, p: Text, q: Text)
    requires xs != [] && ys != [] && AfterItem(xs) + p == AfterItem(ys) + q
    ensures xs[1..] == ys[1..] && p == q
    decreases xs[1..], 1
  {
    assert (AfterItem(xs) + p)[0] == AfterItem(xs)[0] && (AfterItem(ys) + q)[0] == AfterItem(ys)[0];
    if |xs| == 1 {
      SplitAt([CLOSE_LIST], [CLOSE_LIST], p, q);
    } else {
      Regroup([COMMA], ItemsTail(xs[1..]), p);
      Regroup([COMMA], ItemsTail(ys[1..]), q);
      SplitAt([COMMA], [COMMA], ItemsTail(xs[1..]) + p, ItemsTail(ys[1..]) + q);
      ItemsInjective(xs[1..], ys[1..], p, q);
    }
  }

  lemma MembersStart(members: seq<Member>, p: Text)
    ensures (MembersTail(members) + p)[0] == CLOSE_OBJECT <==> members == []
  {
    if members != [] {
      MembersTailStep(members);
    }
  }

  lemma MemberThen(members: seq<Member>, p: Text)
    requires members != []
    ensures MembersTail(members) + p
         == Quote(members[0].key) + ([COLON] + (Print(members[0].value) + (AfterMember(members) + p)))
  {
    MembersTailStep(members);
    var text := Print(members[0].value);
    Regroup(Quote(members[0].key), [COLON] + (text + AfterMember(members)), p);
    Regroup([COLON], text + AfterMember(members), p);
    Regroup(text, AfterMember(members), p);
  }

  lemma {:induction false} MembersInjective(xs: seq<Member>, ys: seq<Member>, p: Text, q: Text)
    requires MembersTail(xs) + p == MembersTail(ys) + q
    ensures xs == ys && p == q
    decreases xs, 0
  {
    MembersStart(xs, p);
    MembersStart(ys, q);
    if xs == [] {
      assert MembersTail([]) == [CLOSE_OBJECT];
      SplitAt([CLOSE_OBJECT], [CLOSE_OBJECT], p, q);
    } else {
      MembersTailStep(xs);
      MembersTailStep(ys);
      var p', q' := AfterMember(xs) + p, AfterMember(ys) + q;
      var vp, vq := Print(xs[0].value) + p', Print(ys[0].value) + q';
      MemberThen(xs, p);
      MemberThen(ys, q);
      QuoteInjective(xs[0].key, ys[0].key, [COLON] + vp, [COLON] + vq);
      SplitAt([COLON], [COLON], vp, vq);
      PrintInjective(xs[0].value, ys[0].value, p', q');
      AfterMembersInjective(xs, ys, p, q);
      assert xs == [xs[0]] + xs[1..] && ys == [ys[0]] + ys[1..];
    }
  }

  lemma {:induction false} AfterMembersInjective(xs: seq<Member>, ys: seq<Member>, p: Text, q: Text)
    requires xs != [] && ys != [] && AfterMember(xs) + p == AfterMember(ys) + q
    ensures xs[1..] == ys[1..] && p == q
    decreases xs[1..], 1
  {
    assert (AfterMember(xs) + p)[0] == AfterMember(xs)[0] && (AfterMember(ys) + q)[0] == AfterMember(ys)[0];
    if |xs| == 1 {
      SplitAt([CLOSE_OBJECT], [CLOSE_OBJECT], p, q);
    } else {
      Regroup([COMMA], MembersTail(xs[1..]), p);
      Regroup([COMMA], MembersTail(ys[1..]), q);
      SplitAt([COMMA], [COMMA], MembersTail(xs[1..]) + p, MembersTail(ys[1..]) + q);
      MembersInjective(xs[1..], ys[1..], p, q);
    }
  }

  // ---------------------------------------------------------------- normal forms decide equality

  lemma NormKeysDistinct(members: seq<Member>)
    requires DistinctKeys(members)
    ensures Distinguished(MemberLe, NormMembers(members))
  {
    var n := NormMembers(members);
    TextOrder();
    assert forall i, j :: 0 <= i < j < |n| ==> n[i].key != n[j].key;
  }

  /** Distinct keys on both sides and as many members: containment one way is containment both ways. */
  lemma {:induction false} ContainedIsSame(a: seq<Member>, b: seq<Member>)
    requires DistinctKeys(a) && DistinctKeys(b) && |a| == |b|
    requires forall m :: m in a ==> m in b
    ensures multiset(a) == multiset(b)
  {
    if a != [] {
      assert a[0] in b;
      var j :| 0 <= j < |b| && b[j] == a[0];
      var rest := b[..j] + b[j + 1..];
      assert b == b[..j] + [b[j]] + b[j + 1..];
      assert a == [a[0]] + a[1..];
      forall m | m in a[1..]
        ensures m in rest
      {
        assert m in a && m != a[0];
      }
      ContainedIsSame(a[1..], rest);
    }
  }

  lemma {:induction false} EqualHasOneNorm(a: Json, b: Json)
    requires WellFormed(a) && WellFormed(b) && Equal(a, b)
    ensures Norm(a) == Norm(b)
    decreases a
  {
    match a
    case Arr(items) =>
      forall i | 0 <= i < |items|
        ensures Norm(items[i]) == Norm(b.items[i])
      {
        EqualHasOneNorm(items[i], b.items[i]);
      }
      assert NormItems(items) == NormItems(b.items);
    case Obj(members) =>
      var x, y := NormMembers(members), NormMembers(b.members);
      forall i | 0 <= i < |members|
        ensures x[i] in y
      {
        assert HasMember(members[i], b.members);
        var j :| 0 <= j < |b.members| && members[i].key == b.members[j].key
              && Equal(members[i].value, b.members[j].value);
        EqualHasOneNorm(members[i].value, b.members[j].value);
        assert y[j] == x[i];
      }
      ContainedIsSame(x, y);
      NormKeysDistinct(members);
      TextOrder();
      SortForgetsOrder(MemberLe, x, y);
    case _ =>
  }

  lemma {:induction false} OneNormIsEqual(a: Json, b: Json)
    requires Norm(a) == Norm(b)
    ensures Equal(a, b)
    decreases a
  {
    match a
    case Arr(items) =>
      assert |items| == |NormItems(b.items)|;
      forall i | 0 <= i < |items|
        ensures Equal(items[i], b.items[i])
      {
        assert NormItems(items)[i] == NormItems(b.items)[i];
        OneNormIsEqual(items[i], b.items[i]);
      }
    case Obj(members) =>
      var x, y := NormMembers(members), NormMembers(b.members);
      SortKeeps(MemberLe, x);
      SortKeeps(MemberLe, y);
      SameElements(x, y);
      forall i | 0 <= i < |members|
        ensures HasMember(members[i], b.members)
      {
        assert x[i] in x;
        var j :| 0 <= j < |y| && y[j] == x[i];
        OneNormIsEqual(members[i].value, b.members[j].value);
      }
    case _ =>
  }

  /** Equal texts come from equal values, even for objects that repeat a key. */
  lemma SameTextsAreEqual(a: Json, b: Json)
    requires Same(a, b)
    ensures Equal(a, b)
  {
    CanonicalPrintsNorm(a);
    CanonicalPrintsNorm(b);
    PrintInjective(Norm(a), Norm(b), [], []);
    OneNormIsEqual(a, b);
  }

  /** The planner's comparison is structural equality of JSON values. */
  lemma SameDecidesEquality(a: Json, b: Json)
    requires WellFormed(a) && WellFormed(b)
    ensures Same(a, b) <==> Equal(a, b)
  {
    if Same(a, b) {
      SameTextsAreEqual(a, b);
    }
    if Equal(a, b) {
      CanonicalPrintsNorm(a);
      CanonicalPrintsNorm(b);
      EqualHasOneNorm(a, b);
    }
  }
}
