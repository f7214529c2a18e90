/** The deterministic evidence archive before compression.  A ustar writer fills header buffers in
    place; a reader written from the format's description, not from the writer, gets back what
    was put in. */
module Ustar {
  import opened Wrappers
  import opened Sorting

  type Byte = n: nat | n < 256

  type Bytes = seq<Byte>

  const BLOCK := 512

  const ZERO: Byte := 48
  const SPACE: Byte := 32
  const SLASH: Byte := 47
  const DOT: Byte := 46

  /** "ustar" and its terminator; the version. */
  const MAGIC: Bytes := [117, 115, 116, 97, 114, 0]
  const VERSION: Bytes := [48, 48]
  const REGULAR: Byte := 48

  const SPACES: Bytes := [32, 32, 32, 32, 32, 32, 32, 32]

  datatype Record = Record(member: Bytes, bytes: Bytes)

  datatype BundleError = NoRecords | DuplicateMember | UnsafeMember | FieldOverflow

  // ---------------------------------------------------------------- octal fields

  function ToOctal(n: nat): (text: Bytes)
    ensures text != []
    ensures forall i :: 0 <= i < |text| ==> ZERO <= text[i] < ZERO + 8
  {
    if n < 8 then [ZERO + n] else ToOctal(n / 8) + [ZERO + n % 8]
  }

  function FromOctal(digits: Bytes): int {
    if digits == [] then 0 else 8 * FromOctal(digits[..|digits| - 1]) + digits[|digits| - 1] - ZERO
  }

  function Pow8(k: nat): nat {
    if k == 0 then 1 else 8 * Pow8(k - 1)
  }

  function Zeros(n: nat): (z: Bytes)
    ensures |z| == n && forall i :: 0 <= i < n ==> z[i] == 0
  {
    seq(n, _ => 0)
  }

  function PadStart(text: Bytes, width: nat): (padded: Bytes)
    ensures |padded| == if |text| < width then width else |text|
    decreases width - |text|
  {
    if |text| < width then PadStart([ZERO] + text, width) else text
  }

  lemma {:induction false} OctalReadsBack(n: nat)
    ensures FromOctal(ToOctal(n)) == n
  {
    if n < 8 {
      assert FromOctal([]) == 0;
    } else {
      OctalReadsBack(n / 8);
      assert ToOctal(n)[..|ToOctal(n)| - 1] == ToOctal(n / 8);
    }
  }

  lemma {:induction false} LeadingZero(text: Bytes)
    ensures FromOctal([ZERO] + text) == FromOctal(text)
  {
    if text == [] {
      assert [ZERO] + text == [ZERO];
      assert FromOctal([ZERO][..0]) == 0;
    } else {
      var n := |text| - 1;
      LeadingZero(text[..n]);
      assert ([ZERO] + text)[..n + 1] == [ZERO] + text[..n];
    }
  }

  lemma {:induction false} PaddingReadsBack(text: Bytes, width: nat)
    requires forall i :: 0 <= i < |text| ==> ZERO <= text[i] < ZERO + 8
    ensures FromOctal(PadStart(text, width)) == FromOctal(text)
    ensures forall i :: 0 <= i < |PadStart(text, width)| ==> ZERO <= PadStart(text, width)[i] < ZERO + 8
    decreases width - |text|
  {
    if |text| < width {
      LeadingZero(text);
      PaddingReadsBack([ZERO] + text, width);
    }
  }

  lemma {:induction false} OctalFits(n: nat, k: nat)
    requires n < Pow8(k) && k > 0
    ensures |ToOctal(n)| <= k
  {
    if n >= 8 {
      assert k > 1;
      OctalFits(n / 8, k - 1);
    }
  }

  lemma EighthFits(n: nat, p: nat)
    ensures n / 8 < p <==> n < 8 * p
  {
  }

  /** A number has at most so many octal digits exactly if it is less than that power of eight. */
  lemma {:induction false} OctalFitsExactly(n: nat, k: nat)
    requires k > 0
    ensures |ToOctal(n)| <= k <==> n < Pow8(k)
  {
    if n < 8 {
      PowersGrow(k);
    } else if k == 1 {
      assert Pow8(1) == 8;
      assert |ToOctal(n / 8)| > 0;
    } else {
      OctalFitsExactly(n / 8, k - 1);
      EighthFits(n, Pow8(k - 1));
    }
  }

  lemma {:induction false} PowersGrow(k: nat)
    requires k > 0
    ensures Pow8(k) >= 8
  {
    if k > 1 {
      PowersGrow(k - 1);
    } else {
      assert Pow8(0) == 1;
    }
  }

  lemma {:induction false} PadStartIs(text: Bytes, width: nat)
    requires |text| <= width
    ensures PadStart(text, width) == seq(width - |text|, _ => ZERO) + text
    decreases width - |text|
  {
    if |text| < width {
      PadStartIs([ZERO] + text, width);
    }
  }

  // ---------------------------------------------------------------- writing in place

  function Put(h: Bytes, offset: nat, text: Bytes): (r: Bytes)
    requires offset + |text| <= |h|
    ensures |r| == |h|
  {
    h[..offset] + text + h[offset + |text|..]
  }

  method WriteAt(header: array<Byte>, offset: nat, text: Bytes)
    requires offset + |text| <= header.Length
    modifies header
    ensures header[..] == Put(old(header[..]), offset, text)
  {
    for i := 0 to |text|
      invariant forall k :: 0 <= k < i ==> header[offset + k] == text[k]
      invariant forall k :: 0 <= k < header.Length && !(offset <= k < offset + i) ==> header[k] == old(header[k])
    {
      header[offset + i] := text[i];
    }
    var was := old(header[..]);
    forall k | 0 <= k < header.Length
      ensures header[k] == Put(was, offset, text)[k]
    {
      PutAt(was, offset, text, k);
    }
  }

  lemma PutAt(h: Bytes, offset: nat, text: Bytes, k: nat)
    requires offset + |text| <= |h| && k < |h|
    ensures Put(h, offset, text)[k] == if offset <= k < offset + |text| then text[k - offset] else h[k]
  {
  }

  /** A field that a write does not touch reads as before. */
  lemma FieldKept(h: Bytes, offset: nat, text: Bytes, a: nat, b: nat)
    requires offset + |text| <= |h| && a <= b <= |h| && (b <= offset || offset + |text| <= a)
    ensures Put(h, offset, text)[a..b] == h[a..b]
  {
    forall k | a <= k < b
      ensures Put(h, offset, text)[k] == h[k]
    {
      PutAt(h, offset, text, k);
    }
  }

  lemma FieldWritten(h: Bytes, offset: nat, text: Bytes)
    requires offset + |text| <= |h|
    ensures Put(h, offset, text)[offset..offset + |text|] == text
  {
  }

  lemma PutTwice(h: Bytes, offset: nat, text: Bytes, other: Bytes)
    requires offset + |text| <= |h| && |other| == |text|
    ensures Put(Put(h, offset, text), offset, other) == Put(h, offset, other)
  {
    var x := Put(h, offset, text);
    assert x[..offset] == h[..offset] && x[offset + |text|..] == h[offset + |text|..];
  }

  lemma PutSame(h: Bytes, offset: nat, text: Bytes)
    requires offset + |text| <= |h| && h[offset..offset + |text|] == text
    ensures Put(h, offset, text) == h
  {
  }

  // ---------------------------------------------------------------- the header

  function OctalField(value: nat, width: nat): (text: Bytes)
    requires |ToOctal(value)| < width
    ensures |text| == width
  {
    PadStart(ToOctal(value), width - 1) + [0]
  }

  predicate SizeFits(size: nat) {
    |ToOctal(size)| < 12
  }

  function Sum(bytes: Bytes): nat {
    if bytes == [] then 0 else bytes[0] + Sum(bytes[1..])
  }

  lemma {:induction false} SumsAdd(a: Bytes, b: Bytes)
    ensures Sum(a + b) == Sum(a) + Sum(b)
    ensures forall c :: Sum([c]) == c
  {
    if a == [] {
      assert a + b == b;
    } else {
      SumsAdd(a[1..], b);
      assert (a + b)[1..] == a[1..] + b;
    }
  }

  /** Eleven octal digits hold every size below eight gibibytes and no other. */
  lemma SizeFitsExactly(size: nat)
    ensures SizeFits(size) <==> size < 8 * 1024 * 1024 * 1024
  {
    OctalFitsExactly(size, 11);
    assert Pow8(2) == 64 && Pow8(4) == 4096 && Pow8(6) == 262144 && Pow8(8) == 16777216 && Pow8(10) == 1073741824;
    assert Pow8(11) == 8589934592;
  }

  /** The header with everything but its checksum: mode 644, no owner, no time. */
  function Unsummed(member: Bytes, size: nat): (h: Bytes)
    requires |member| <= 100 && SizeFits(size)
    ensures |h| == BLOCK
  {
    SmallOctals();
    var named := Put(Zeros(BLOCK), 0, member);
    var owned := Put(Put(Put(named, 100, OctalField(420, 8)), 108, OctalField(0, 8)), 116, OctalField(0, 8));
    var sized := Put(Put(owned, 124, OctalField(size, 12)), 136, OctalField(0, 12));
    Put(Put(Put(Put(sized, 148, SPACES), 156, [REGULAR]), 257, MAGIC), 263, VERSION)
  }

  lemma SmallOctals()
    ensures |ToOctal(420)| == 3 && |ToOctal(0)| == 1
  {
    assert ToOctal(420) == ToOctal(52) + [ZERO + 4];
    assert ToOctal(52) == ToOctal(6) + [ZERO + 4];
  }

  function Checksum(h: Bytes): Bytes {
    PadStart(ToOctal(Sum(h)), 6) + [0, SPACE]
  }

  lemma {:induction false} SumBound(bytes: Bytes)
    ensures Sum(bytes) <= 255 * |bytes|
  {
    if bytes != [] {
      SumBound(bytes[1..]);
    }
  }

  lemma ChecksumFits(h: Bytes)
    requires |h| == BLOCK
    ensures |Checksum(h)| == 8
  {
    SumBound(h);
    assert Pow8(2) == 64 && Pow8(4) == 4096 && Pow8(6) == 262144;
    OctalFits(Sum(h), 6);
  }

  function Header(member: Bytes, size: nat): (h: Bytes)
    requires |member| <= 100 && SizeFits(size)
    ensures |h| == BLOCK
  {
    var h := Unsummed(member, size);
    ChecksumFits(h);
    Put(h, 148, Checksum(h))
  }

  method BuildHeader(member: Bytes, size: nat) returns (header: array<Byte>)
    requires |member| <= 100 && SizeFits(size)
    ensures fresh(header) && header[..] == Header(member, size)
  {
    header := new Byte[BLOCK](_ => 0);
    assert header[..] == Zeros(BLOCK);
    SmallOctals();
    WriteAt(header, 0, member);
    WriteAt(header, 100, OctalField(420, 8));
    WriteAt(header, 108, OctalField(0, 8));
    WriteAt(header, 116, OctalField(0, 8));
    WriteAt(header, 124, OctalField(size, 12));
    WriteAt(header, 136, OctalField(0, 12));
    WriteAt(header, 148, SPACES);
    WriteAt(header, 156, [REGULAR]);
    WriteAt(header, 257, MAGIC);
    WriteAt(header, 263, VERSION);
    var checksum := Checksum(header[..]);
    ChecksumFits(header[..]);
    WriteAt(header, 148, checksum);
  }

  // ---------------------------------------------------------------- members

  predicate Alphanumeric(c: Byte) {
    48 <= c < 58 || 65 <= c < 91 || 97 <= c < 123
  }

  /** Letters, digits, underscore, dot, slash and hyphen. */
  predicate Allowed(c: Byte) {
    Alphanumeric(c) || c == 95 || c == DOT || c == SLASH || c == 45
  }

  /** The parts between slashes. */
  function Parts(member: Bytes): (parts: seq<Bytes>)
    ensures parts != []
  {
    if member == [] then [[]]
    else
      var before := Parts(member[..|member| - 1]);
      var c := member[|member| - 1];
      if c == SLASH then before + [[]] else before[..|before| - 1] + [before[|before| - 1] + [c]]
  }

  ghost function JoinedBySlashes(parts: seq<Bytes>): Bytes
    requires parts != []
  {
    if |parts| == 1 then parts[0]
    else JoinedBySlashes(parts[..|parts| - 1]) + [SLASH] + parts[|parts| - 1]
  }

  lemma LastPart(before: seq<Bytes>, part: Bytes)
    requires before != []
    ensures JoinedBySlashes(before + [part]) == JoinedBySlashes(before) + [SLASH] + part
  {
    assert (before + [part])[..|before|] == before;
  }

  lemma LongerPart(before: Bytes, part: Bytes, c: Byte)
    ensures before + [SLASH] + (part + [c]) == (before + [SLASH] + part) + [c]
  {
  }

  lemma LongerLast(before: seq<Bytes>, part: Bytes, c: Byte)
    ensures JoinedBySlashes(before + [part + [c]]) == JoinedBySlashes(before + [part]) + [c]
  {
    if before == [] {
      assert [] + [part] == [part] && [] + [part + [c]] == [part + [c]];
    } else {
      LastPart(before, part);
      LastPart(before, part + [c]);
      LongerPart(JoinedBySlashes(before), part, c);
    }
  }

  lemma {:induction false} NoSlashInside(member: Bytes)
    ensures forall i :: 0 <= i < |Parts(member)| ==> SLASH !in Parts(member)[i]
  {
    if member != [] {
      NoSlashInside(member[..|member| - 1]);
    }
  }

  /** The parts of a member hold no slash, and joined by slashes they are the member: no other
      list of parts does both. */
  lemma {:induction false} PartsJoin(member: Bytes)
    ensures JoinedBySlashes(Parts(member)) == member
    ensures forall i :: 0 <= i < |Parts(member)| ==> SLASH !in Parts(member)[i]
  {
    NoSlashInside(member);
    if member != [] {
      var k := |member| - 1;
      var parts := Parts(member[..k]);
      PartsJoin(member[..k]);
      assert member == member[..k] + [member[k]];
      if member[k] == SLASH {
        LastPart(parts, []);
        assert JoinedBySlashes(Parts(member)) == JoinedBySlashes(parts) + [SLASH] + [];
      } else {
        LongerLast(parts[..|parts| - 1], parts[|parts| - 1], member[k]);
        assert parts == parts[..|parts| - 1] + [parts[|parts| - 1]];
        assert JoinedBySlashes(Parts(member)) == JoinedBySlashes(parts) + [member[k]];
      }
    }
  }

  predicate SafeMember(member: Bytes) {
    && member != [] && Alphanumeric(member[0])
    && (forall i :: 0 <= i < |member| ==> Allowed(member[i]))
    && |member| <= 100
    && (forall i :: 0 <= i < |Parts(member)| ==>
        Parts(member)[i] != [] && Parts(member)[i] != [DOT] && Parts(member)[i] != [DOT, DOT])
  }

  lemma {:induction false} PartsOfOne(part: Bytes)
    requires SLASH !in part
    ensures Parts(part) == [part]
  {
    if part != [] {
      var k := |part| - 1;
      PartsOfOne(part[..k]);
      assert part == part[..k] + [part[k]];
    }
  }

  lemma {:induction false} PartsThen(before: Bytes, part: Bytes)
    requires SLASH !in part
    ensures Parts(before + [SLASH] + part) == Parts(before) + [part]
  {
    var all := before + [SLASH] + part;
    if part == [] {
      assert all[..|all| - 1] == before;
    } else {
      var k := |part| - 1;
      PartsThen(before, part[..k]);
      assert all[..|all| - 1] == before + [SLASH] + part[..k];
      assert part == part[..k] + [part[k]];
    }
  }

  /** Splitting at the slashes undoes joining by them. */
  lemma {:induction false} JoinSplits(parts: seq<Bytes>)
    requires parts != [] && forall i :: 0 <= i < |parts| ==> SLASH !in parts[i]
    ensures Parts(JoinedBySlashes(parts)) == parts
  {
    var k := |parts| - 1;
    if k == 0 {
      PartsOfOne(parts[0]);
    } else {
      JoinSplits(parts[..k]);
      PartsThen(JoinedBySlashes(parts[..k]), parts[k]);
      assert parts == parts[..k] + [parts[k]];
    }
  }

  ghost predicate LetterOrDigit(c: char) {
    '0' <= c <= '9' || 'A' <= c <= 'Z' || 'a' <= c <= 'z'
  }

  /** Parts joined by slashes are a safe member exactly if there are at most a hundred bytes, all
      of them letters, digits or one of "_./-" and the first a letter or a digit, and no part is
      empty, "." or "..". */
  lemma SafeExactly(parts: seq<Bytes>)
    requires parts != [] && forall i :: 0 <= i < |parts| ==> SLASH !in parts[i]
    ensures var member := JoinedBySlashes(parts);
      SafeMember(member) <==>
        && 0 < |member| <= 100 && LetterOrDigit(member[0] as char)
        && (forall k :: 0 <= k < |member| ==> LetterOrDigit(member[k] as char) || member[k] as char in "_./-")
        && forall i :: 0 <= i < |parts| ==>
             |parts[i]| > 0 && (|parts[i]| <= 2 ==> exists k :: 0 <= k < |parts[i]| && parts[i][k] != 46)
  {
    JoinSplits(parts);
    var member := JoinedBySlashes(parts);
    forall k | 0 <= k < |member|
      ensures Alphanumeric(member[k]) <==> LetterOrDigit(member[k] as char)
      ensures Allowed(member[k]) <==> LetterOrDigit(member[k] as char) || member[k] as char in "_./-"
    {
      InAlphabet(member[k]);
    }
    forall i | 0 <= i < |parts|
      ensures (parts[i] != [] && parts[i] != [DOT] && parts[i] != [DOT, DOT])
         <==> |parts[i]| > 0 && (|parts[i]| <= 2 ==> exists k :: 0 <= k < |parts[i]| && parts[i][k] != 46)
    {
      NotJustDots(parts[i]);
    }
  }

  lemma NotJustDots(part: Bytes)
    ensures (part != [] && part != [DOT] && part != [DOT, DOT])
       <==> |part| > 0 && (|part| <= 2 ==> exists k :: 0 <= k < |part| && part[k] != 46)
  {
  }

  lemma InAlphabet(c: Byte)
    ensures Alphanumeric(c) <==> LetterOrDigit(c as char)
    ensures Allowed(c) <==> LetterOrDigit(c as char) || c as char in "_./-"
  {
    assert "_./-" == ['_', '.', '/', '-'];
  }

  // ---------------------------------------------------------------- the archive

  lemma WholeNumber(n: nat, q: nat)
    requires n == q * 512
    ensures n % 512 == 0
  {
  }

  lemma Filled(size: nat, r: nat, q: nat)
    requires r < 512 && size == q * 512 + r
    ensures (512 - r) % 512 == if r == 0 then 0 else 512 - r
    ensures (size + (512 - r) % 512) % 512 == 0
  {
    if r == 0 {
      WholeNumber(size, q);
    } else {
      WholeNumber(size + 512 - r, q + 1);
    }
  }

  function Padding(size: nat): (p: nat)
    ensures p < BLOCK && (size + p) % BLOCK == 0
  {
    Filled(size, size % 512, size / 512);
    (BLOCK - size % BLOCK) % BLOCK
  }

  function Entry(r: Record): (e: Bytes)
    requires |r.member| <= 100 && SizeFits(|r.bytes|)
    ensures |e| == BLOCK + |r.bytes| + Padding(|r.bytes|)
  {
    Header(r.member, |r.bytes|) + r.bytes + Zeros(Padding(|r.bytes|))
  }

  predicate Writable(r: Record) {
    SafeMember(r.member) && SizeFits(|r.bytes|)
  }

  predicate AllWritable(records: seq<Record>) {
    forall i :: 0 <= i < |records| ==> Writable(records[i])
  }

  function Entries(records: seq<Record>): Bytes
    requires AllWritable(records)
  {
    if records == [] then []
    else
      assert Writable(records[|records| - 1]);
      Entries(records[..|records| - 1]) + Entry(records[|records| - 1])
  }

  function Archive(records: seq<Record>): Bytes
    requires AllWritable(records)
  {
    Entries(records) + Zeros(2 * BLOCK)
  }

  function MemberOf(r: Record): Bytes {
    r.member
  }

  /** Records go by member name. */
  function RecordLe(a: Record, b: Record): bool {
    TextLe(a.member, b.member)
  }

  ghost predicate Acceptable(records: seq<Record>) {
    records != [] && Keyed(MemberOf, records) && AllWritable(records)
  }

  lemma WritableAnyOrder(a: seq<Record>, b: seq<Record>)
    requires multiset(a) == multiset(b) && AllWritable(a)
    ensures AllWritable(b)
  {
    SameElements(a, b);
    forall k | 0 <= k < |b|
      ensures Writable(b[k])
    {
      assert b[k] in a;
    }
  }

  /** Pushes header, bytes and padding of each record, then the two closing blocks. */
  lemma EntriesMore(records: seq<Record>, i: nat)
    requires i < |records| && AllWritable(records[..i]) && Writable(records[i])
    ensures AllWritable(records[..i + 1])
    ensures Entries(records[..i + 1]) == Entries(records[..i]) + Entry(records[i])
  {
    assert records[..i + 1][..i] == records[..i];
  }

  /** The first record that cannot be written, and why. */
  ghost predicate FirstFlaw(records: seq<Record>, i: nat, e: BundleError) {
    && i < |records| && AllWritable(records[..i])
    && match e
       case UnsafeMember => !SafeMember(records[i].member)
       case FieldOverflow => SafeMember(records[i].member) && !SizeFits(|records[i].bytes|)
       case _ => false
  }

  method Pack(records: seq<Record>) returns (r: Result<Bytes, BundleError>)
    ensures r.Ok? <==> AllWritable(records)
    ensures r.Ok? ==> r.value == Archive(records)
    ensures r.Err? ==> exists i: nat :: FirstFlaw(records, i, r.error)
  {
    var chunks: Bytes := [];
    for i := 0 to |records|
      invariant AllWritable(records[..i])
      invariant chunks == Entries(records[..i])
    {
      if !SafeMember(records[i].member) {
        assert FirstFlaw(records, i, UnsafeMember);
        return Err(UnsafeMember);
      }
      if !SizeFits(|records[i].bytes|) {
        assert FirstFlaw(records, i, FieldOverflow);
        return Err(FieldOverflow);
      }
      var header := BuildHeader(records[i].member, |records[i].bytes|);
      EntriesMore(records, i);
      chunks := chunks + (header[..] + records[i].bytes + Zeros(Padding(|records[i].bytes|)));
    }
    assert records[..|records|] == records;
    return Ok(chunks + Zeros(2 * BLOCK));
  }

  method DeterministicBundle(records: seq<Record>) returns (r: Result<Bytes, BundleError>)
    ensures r.Ok? <==> Acceptable(records)
    ensures r.Ok? ==> AllWritable(SortBy(RecordLe, records)) && r.value == Archive(SortBy(RecordLe, records))
    ensures r == Err(NoRecords) <==> records == []
    ensures r == Err(DuplicateMember) <==> records != [] && !Keyed(MemberOf, records)
    ensures r.Err? && records != [] && Keyed(MemberOf, records) ==>
      exists i: nat :: FirstFlaw(SortBy(RecordLe, records), i, r.error)
  {
    if records == [] {
      return Err(NoRecords);
    }
    if exists i, j :: 0 <= i < j < |records| && records[i].member == records[j].member {
      return Err(DuplicateMember);
    }
    var sorted := SortBy(RecordLe, records);
    SortKeeps(RecordLe, records);
    if AllWritable(records) {
      WritableAnyOrder(records, sorted);
    }
    r := Pack(sorted);
    if r.Ok? {
      WritableAnyOrder(sorted, records);
    }
  }

  // ---------------------------------------------------------------- a reader

  /** The text of a field up to its terminator, or the whole field. */
  function UpToNul(field: Bytes): Bytes {
    if field == [] || field[0] == 0 then [] else [field[0]] + UpToNul(field[1..])
  }

  predicate OctalDigit(c: Byte) {
    ZERO <= c < ZERO + 8
  }

  function LeadingDigits(field: Bytes): Bytes {
    if field == [] || !OctalDigit(field[0]) then [] else [field[0]] + LeadingDigits(field[1..])
  }

  lemma LeadingDigitsBound(field: Bytes)
    ensures |LeadingDigits(field)| <= |field|
  {
  }

  /** An octal number closed by a space or a NUL. */
  function ReadOctal(field: Bytes): Option<int> {
    var digits := LeadingDigits(field);
    LeadingDigitsBound(field);
    if digits == [] || |digits| == |field| || (field[|digits|] != 0 && field[|digits|] != SPACE) then None
    else Some(FromOctal(digits))
  }

  datatype Listing = Listing(name: Bytes, size: int)

  /** A header block: its checksum, with the checksum field taken as spaces, its magic and version,
      a regular file's type flag, the name behind its prefix, and the size. */
  function ReadHeader(block: Bytes): Option<Listing>
    requires |block| == BLOCK
  {
    var checksum := ReadOctal(block[148..156]);
    if checksum.None? || checksum.value != Sum(Put(block, 148, SPACES)) then None
    else if block[257..263] != MAGIC || block[263..265] != VERSION then None
    else if block[156] != REGULAR && block[156] != 0 then None
    else
      var size := ReadOctal(block[124..136]);
      if size.None? then None
      else
        var prefix, name := UpToNul(block[345..500]), UpToNul(block[0..100]);
        Some(Listing(if prefix == [] then name else prefix + [SLASH] + name, size.value))
  }

  predicate AllZero(bytes: Bytes) {
    forall i :: 0 <= i < |bytes| ==> bytes[i] == 0
  }

  /** Reads entries up to the two zero blocks that close the archive. */
  function ReadArchive(bytes: Bytes): Option<seq<Record>>
    decreases |bytes|
  {
    if |bytes| < BLOCK then None
    else if AllZero(bytes[..BLOCK]) then
      if |bytes| >= 2 * BLOCK && AllZero(bytes[BLOCK..2 * BLOCK]) then Some([]) else None
    else
      var header := ReadHeader(bytes[..BLOCK]);
      if header.None? || header.value.size < 0 then None
      else
        var size := header.value.size;
        var total := BLOCK + size + Padding(size);
        if |bytes| < total then None
        else
          var rest := ReadArchive(bytes[total..]);
          if rest.None? then None
          else Some([Record(header.value.name, bytes[BLOCK..BLOCK + size])] + rest.value)
  }

  // ---------------------------------------------------------------- fields read back

  lemma {:induction false} DigitsThen(digits: Bytes, close: Byte, more: Bytes)
    requires (forall i :: 0 <= i < |digits| ==> OctalDigit(digits[i])) && !OctalDigit(close)
    ensures LeadingDigits(digits + [close] + more) == digits
  {
    var field := digits + [close] + more;
    if digits != [] {
      DigitsThen(digits[1..], close, more);
      assert field[1..] == digits[1..] + [close] + more;
    }
  }

  lemma FieldReadsBack(n: nat, width: nat, close: Byte, more: Bytes)
    requires close == 0 || close == SPACE
    ensures ReadOctal(PadStart(ToOctal(n), width) + [close] + more) == Some(n)
  {
    var digits := PadStart(ToOctal(n), width);
    PaddingReadsBack(ToOctal(n), width);
    OctalReadsBack(n);
    DigitsThen(digits, close, more);
    assert (digits + [close] + more)[|digits|] == close;
    assert |ToOctal(n)| > 0;
  }

  lemma {:induction false} NameReadsBack(name: Bytes, n: nat)
    requires forall i :: 0 <= i < |name| ==> name[i] != 0
    ensures UpToNul(name + Zeros(n)) == name
  {
    if name == [] {
      assert name + Zeros(n) == Zeros(n);
    } else {
      NameReadsBack(name[1..], n);
      assert (name + Zeros(n))[1..] == name[1..] + Zeros(n);
    }
  }

  /** The later writes of a header, one by one, leave a field alone. */
  lemma SizeField(member: Bytes, size: nat)
    requires |member| <= 100 && SizeFits(size)
    ensures Unsummed(member, size)[124..136] == OctalField(size, 12)
  {
    SmallOctals();
    var named := Put(Zeros(BLOCK), 0, member);
    var owned := Put(Put(Put(named, 100, OctalField(420, 8)), 108, OctalField(0, 8)), 116, OctalField(0, 8));
    var h4 := Put(owned, 124, OctalField(size, 12));
    var h5 := Put(h4, 136, OctalField(0, 12));
    var h6 := Put(h5, 148, SPACES);
    var h7 := Put(h6, 156, [REGULAR]);
    var h8 := Put(h7, 257, MAGIC);
    FieldWritten(owned, 124, OctalField(size, 12));
    FieldKept(h4, 136, OctalField(0, 12), 124, 136);
    FieldKept(h5, 148, SPACES, 124, 136);
    FieldKept(h6, 156, [REGULAR], 124, 136);
    FieldKept(h7, 257, MAGIC, 124, 136);
    FieldKept(h8, 263, VERSION, 124, 136);
  }

  lemma NameField(member: Bytes, size: nat)
    requires |member| <= 100 && SizeFits(size)
    ensures Unsummed(member, size)[0..100] == member + Zeros(100 - |member|)
    ensures Unsummed(member, size)[345..500] == Zeros(155)
  {
    SmallOctals();
    var h0 := Put(Zeros(BLOCK), 0, member);
    var h1 := Put(h0, 100, OctalField(420, 8));
    var h2 := Put(h1, 108, OctalField(0, 8));
    var h3 := Put(h2, 116, OctalField(0, 8));
    var h4 := Put(h3, 124, OctalField(size, 12));
    var h5 := Put(h4, 136, OctalField(0, 12));
    var h6 := Put(h5, 148, SPACES);
    var h7 := Put(h6, 156, [REGULAR]);
    var h8 := Put(h7, 257, MAGIC);
    BlankFields(member);
    KeptTwice(h0, 100, OctalField(420, 8));
    KeptTwice(h1, 108, OctalField(0, 8));
    KeptTwice(h2, 116, OctalField(0, 8));
    KeptTwice(h3, 124, OctalField(size, 12));
    KeptTwice(h4, 136, OctalField(0, 12));
    KeptTwice(h5, 148, SPACES);
    KeptTwice(h6, 156, [REGULAR]);
    KeptTwice(h7, 257, MAGIC);
    KeptTwice(h8, 263, VERSION);
  }

  lemma BlankFields(member: Bytes)
    requires |member| <= 100
    ensures Put(Zeros(BLOCK), 0, member)[0..100] == member + Zeros(100 - |member|)
    ensures Put(Zeros(BLOCK), 0, member)[345..500] == Zeros(155)
  {
    FieldKept(Zeros(BLOCK), 0, member, 345, 500);
  }

  /** A write between the name and the prefix leaves both alone. */
  lemma KeptTwice(h: Bytes, offset: nat, text: Bytes)
    requires |h| == BLOCK && 100 <= offset && offset + |text| <= 345
    ensures Put(h, offset, text)[0..100] == h[0..100]
    ensures Put(h, offset, text)[345..500] == h[345..500]
  {
    FieldKept(h, offset, text, 0, 100);
    FieldKept(h, offset, text, 345, 500);
  }

  lemma FixedFields(member: Bytes, size: nat)
    requires |member| <= 100 && SizeFits(size)
    ensures Unsummed(member, size)[148..156] == SPACES && Unsummed(member, size)[156..157] == [REGULAR]
    ensures Unsummed(member, size)[257..263] == MAGIC && Unsummed(member, size)[263..265] == VERSION
  {
    SmallOctals();
    var named := Put(Zeros(BLOCK), 0, member);
    var owned := Put(Put(Put(named, 100, OctalField(420, 8)), 108, OctalField(0, 8)), 116, OctalField(0, 8));
    var h5 := Put(Put(owned, 124, OctalField(size, 12)), 136, OctalField(0, 12));
    var h6 := Put(h5, 148, SPACES);
    var h7 := Put(h6, 156, [REGULAR]);
    var h8 := Put(h7, 257, MAGIC);
    FieldWritten(h5, 148, SPACES);
    FieldKept(h6, 156, [REGULAR], 148, 156);
    FieldKept(h7, 257, MAGIC, 148, 156);
    FieldKept(h8, 263, VERSION, 148, 156);
    FieldWritten(h6, 156, [REGULAR]);
    FieldKept(h7, 257, MAGIC, 156, 157);
    FieldKept(h8, 263, VERSION, 156, 157);
    FieldWritten(h7, 257, MAGIC);
    FieldKept(h8, 263, VERSION, 257, 263);
    FieldWritten(h8, 263, VERSION);
  }

  lemma ChecksumReadsBack(h: Bytes)
    requires |h| == BLOCK && h[148..156] == SPACES && |Checksum(h)| == 8
    ensures ReadOctal(Put(h, 148, Checksum(h))[148..156]) == Some(Sum(h))
    ensures Put(Put(h, 148, Checksum(h)), 148, SPACES) == h
  {
    FieldWritten(h, 148, Checksum(h));
    assert Checksum(h) == PadStart(ToOctal(Sum(h)), 6) + [0] + [SPACE];
    FieldReadsBack(Sum(h), 6, 0, [SPACE]);
    PutTwice(h, 148, Checksum(h), SPACES);
    PutSame(h, 148, SPACES);
  }

  lemma SummedFields(h: Bytes)
    requires |h| == BLOCK && |Checksum(h)| == 8
    ensures var s := Put(h, 148, Checksum(h));
      && s[0..100] == h[0..100] && s[124..136] == h[124..136] && s[156..157] == h[156..157]
      && s[257..263] == h[257..263] && s[263..265] == h[263..265] && s[345..500] == h[345..500]
  {
    FieldKept(h, 148, Checksum(h), 0, 100);
    FieldKept(h, 148, Checksum(h), 124, 136);
    FieldKept(h, 148, Checksum(h), 156, 157);
    FieldKept(h, 148, Checksum(h), 257, 263);
    FieldKept(h, 148, Checksum(h), 263, 265);
    FieldKept(h, 148, Checksum(h), 345, 500);
  }

  lemma SafeHasNoNul(member: Bytes)
    requires SafeMember(member)
    ensures forall i :: 0 <= i < |member| ==> member[i] != 0
  {
  }

  /** What a header holds in its fields, and the checksum that its bytes have. */
  ghost predicate HasFields(s: Bytes, member: Bytes, size: nat)
    requires |s| == BLOCK && |member| <= 100 && SizeFits(size)
  {
    && s[0..100] == member + Zeros(100 - |member|) && s[345..500] == Zeros(155)
    && s[124..136] == OctalField(size, 12)
    && s[156..157] == [REGULAR] && s[257..263] == MAGIC && s[263..265] == VERSION
    && ReadOctal(s[148..156]) == Some(Sum(Put(s, 148, SPACES)))
  }

  lemma HeaderHasFields(member: Bytes, size: nat)
    requires SafeMember(member) && SizeFits(size)
    ensures HasFields(Header(member, size), member, size)
  {
    var h := Unsummed(member, size);
    ChecksumFits(h);
    FixedFields(member, size);
    SizeField(member, size);
    NameField(member, size);
    ChecksumReadsBack(h);
    SummedFields(h);
  }

  lemma SizeReadsBack(size: nat)
    requires SizeFits(size)
    ensures ReadOctal(OctalField(size, 12)) == Some(size)
  {
    FieldReadsBack(size, 11, 0, []);
    assert OctalField(size, 12) + [] == OctalField(size, 12);
  }

  lemma FieldsReadBack(s: Bytes, member: Bytes, size: nat)
    requires |s| == BLOCK && SafeMember(member) && SizeFits(size) && HasFields(s, member, size)
    ensures ReadHeader(s) == Some(Listing(member, size))
    ensures !AllZero(s)
  {
    SizeReadsBack(size);
    SafeHasNoNul(member);
    NameReadsBack(member, 100 - |member|);
    NameReadsBack([], 155);
    assert [] + Zeros(155) == Zeros(155);
    assert s[156] == s[156..157][0];
    assert s[0] == s[0..100][0] == member[0];
  }

  /** The reader accepts every header that is written, its checksum included, and reads the name
      and the size back. */
  lemma HeaderReadsBack(member: Bytes, size: nat)
    requires SafeMember(member) && SizeFits(size)
    ensures ReadHeader(Header(member, size)) == Some(Listing(member, size))
    ensures !AllZero(Header(member, size))
  {
    HeaderHasFields(member, size);
    FieldsReadBack(Header(member, size), member, size);
  }

  lemma FixedOctals()
    ensures |ToOctal(420)| < 8 && OctalField(420, 8) == [48, 48, 48, 48, 54, 52, 52, 0]
    ensures |ToOctal(0)| < 8 && OctalField(0, 8) == [48, 48, 48, 48, 48, 48, 48, 0]
    ensures OctalField(0, 12) == [48, 48, 48, 48, 48, 48, 48, 48, 48, 48, 48, 0]
  {
    SmallOctals();
    assert ToOctal(420) == [54, 52, 52];
    PadStartIs(ToOctal(420), 7);
    PadStartIs(ToOctal(0), 7);
    PadStartIs(ToOctal(0), 11);
  }

  /** What stands at one place of a header before its checksum. */
  lemma UnsummedAt(member: Bytes, size: nat, k: nat)
    requires |member| <= 100 && SizeFits(size) && k < BLOCK
    ensures |ToOctal(420)| < 8 && |ToOctal(0)| < 8
    ensures Unsummed(member, size)[k] ==
      if k < |member| then member[k]
      else if 100 <= k < 108 then OctalField(420, 8)[k - 100]
      else if 108 <= k < 116 then OctalField(0, 8)[k - 108]
      else if 116 <= k < 124 then OctalField(0, 8)[k - 116]
      else if 124 <= k < 136 then OctalField(size, 12)[k - 124]
      else if 136 <= k < 148 then OctalField(0, 12)[k - 136]
      else if 148 <= k < 156 then SPACE
      else if k == 156 then REGULAR
      else if 257 <= k < 263 then MAGIC[k - 257]
      else if 263 <= k < 265 then VERSION[k - 263]
      else 0
  {
    SmallOctals();
    var named := Put(Zeros(BLOCK), 0, member);
    var h1 := Put(named, 100, OctalField(420, 8));
    var h2 := Put(h1, 108, OctalField(0, 8));
    var owned := Put(h2, 116, OctalField(0, 8));
    var h4 := Put(owned, 124, OctalField(size, 12));
    var sized := Put(h4, 136, OctalField(0, 12));
    var h6 := Put(sized, 148, SPACES);
    var h7 := Put(h6, 156, [REGULAR]);
    var h8 := Put(h7, 257, MAGIC);
    PutAt(h8, 263, VERSION, k);
    PutAt(h7, 257, MAGIC, k);
    PutAt(h6, 156, [REGULAR], k);
    PutAt(sized, 148, SPACES, k);
    PutAt(h4, 136, OctalField(0, 12), k);
    PutAt(owned, 124, OctalField(size, 12), k);
    PutAt(h2, 116, OctalField(0, 8), k);
    PutAt(h1, 108, OctalField(0, 8), k);
    PutAt(named, 100, OctalField(420, 8), k);
    PutAt(Zeros(BLOCK), 0, member, k);
  }

  /** The bytes of a header: mode 0000644, no owner, no group and no time, the size in eleven
      octal digits, six digits of checksum closed by a NUL and a space, the type flag '0',
      "ustar" with version "00", and nothing else. */
  ghost predicate IsHeader(s: Bytes, member: Bytes, size: nat) {
    && |s| == 512 && |member| <= 100
    && (forall k :: 0 <= k < 100 ==> s[k] == if k < |member| then member[k] else 0)
    && s[100..108] == [48, 48, 48, 48, 54, 52, 52, 0]
    && s[108..116] == [48, 48, 48, 48, 48, 48, 48, 0]
    && s[116..124] == [48, 48, 48, 48, 48, 48, 48, 0]
    && (forall k :: 124 <= k < 135 ==> 48 <= s[k] <= 55) && FromOctal(s[124..135]) == size && s[135] == 0
    && s[136..148] == [48, 48, 48, 48, 48, 48, 48, 48, 48, 48, 48, 0]
    && (forall k :: 148 <= k < 154 ==> 48 <= s[k] <= 55)
    && FromOctal(s[148..154]) == Sum(s[..148]) + 8 * 32 + Sum(s[156..])
    && s[154] == 0 && s[155] == 32
    && s[156] == 48
    && s[257..265] == [117, 115, 116, 97, 114, 0, 48, 48]
    && (forall k :: 157 <= k < 257 || 265 <= k < 512 ==> s[k] == 0)
  }

  lemma ChecksumBytes(h: Bytes)
    requires |Checksum(h)| == 8
    ensures FromOctal(Checksum(h)[..6]) == Sum(h) && Checksum(h)[6..] == [0, 32]
    ensures forall k :: 0 <= k < 6 ==> 48 <= Checksum(h)[k] <= 55
  {
    PaddingReadsBack(ToOctal(Sum(h)), 6);
    OctalReadsBack(Sum(h));
    assert Checksum(h)[..6] == PadStart(ToOctal(Sum(h)), 6);
  }

  /** The sum of a header whose checksum field holds spaces, part by part. */
  lemma SumAround(h: Bytes)
    requires |h| == BLOCK && h[148..156] == SPACES
    ensures Sum(h) == Sum(h[..148]) + 8 * 32 + Sum(h[156..])
  {
    SumsAdd(h[..148], SPACES + h[156..]);
    SumsAdd(SPACES, h[156..]);
    EightSpaces();
    assert h == h[..148] + (SPACES + h[156..]);
  }

  lemma ChecksumField(h: Bytes)
    requires |h| == BLOCK && h[148..156] == SPACES && |Checksum(h)| == 8
    ensures var s := Put(h, 148, Checksum(h));
      && (forall k :: 148 <= k < 154 ==> 48 <= s[k] <= 55) && s[154] == 0 && s[155] == 32
      && FromOctal(s[148..154]) == Sum(s[..148]) + 8 * 32 + Sum(s[156..])
  {
    var s, sum := Put(h, 148, Checksum(h)), Checksum(h);
    ChecksumBytes(h);
    SumAround(h);
    forall k | 148 <= k < 156
      ensures s[k] == sum[k - 148]
    {
      PutAt(h, 148, sum, k);
    }
    assert s[148..154] == sum[..6] && sum[6] == sum[6..][0] && sum[7] == sum[6..][1];
    assert s[..148] == h[..148] && s[156..] == h[156..];
  }

  lemma EightSpaces()
    ensures Sum(SPACES) == 8 * 32
  {
    SumsAdd([32, 32], [32, 32]);
    assert [32, 32][1..] == [32];
    SumsAdd([32, 32, 32, 32], [32, 32, 32, 32]);
  }

  lemma SizeDigits(size: nat)
    requires SizeFits(size)
    ensures FromOctal(OctalField(size, 12)[..11]) == size && OctalField(size, 12)[11] == 0
    ensures forall k :: 0 <= k < 11 ==> 48 <= OctalField(size, 12)[k] <= 55
  {
    PaddingReadsBack(ToOctal(size), 11);
    OctalReadsBack(size);
    assert OctalField(size, 12)[..11] == PadStart(ToOctal(size), 11);
  }

  lemma HeaderAt(member: Bytes, size: nat, k: nat)
    requires |member| <= 100 && SizeFits(size) && k < BLOCK && !(148 <= k < 156)
    ensures Header(member, size)[k] == Unsummed(member, size)[k]
  {
    ChecksumFits(Unsummed(member, size));
    PutAt(Unsummed(member, size), 148, Checksum(Unsummed(member, size)), k);
  }

  /** The fields with one value. */
  lemma FixedBytes(s: Bytes, member: Bytes, size: nat)
    requires |member| <= 100 && SizeFits(size) && s == Header(member, size)
    ensures forall k :: 0 <= k < 100 ==> s[k] == if k < |member| then member[k] else 0
    ensures s[100..108] == OctalField(420, 8) && s[108..116] == OctalField(0, 8) && s[116..124] == OctalField(0, 8)
    ensures s[124..136] == OctalField(size, 12) && s[136..148] == OctalField(0, 12)
    ensures s[156] == REGULAR && s[257..265] == MAGIC + VERSION
    ensures forall k :: 157 <= k < 257 || 265 <= k < 512 ==> s[k] == 0
  {
    forall k: nat | k < BLOCK && !(148 <= k < 156)
      ensures s[k] == Unsummed(member, size)[k]
    {
      HeaderAt(member, size, k);
    }
    forall k: nat | k < BLOCK {
      UnsummedAt(member, size, k);
    }
  }

  /** Every header written is, byte for byte, the header of its member and size. */
  lemma HeaderIs(member: Bytes, size: nat)
    requires |member| <= 100 && SizeFits(size)
    ensures IsHeader(Header(member, size), member, size)
  {
    var s := Header(member, size);
    ChecksumFits(Unsummed(member, size));
    FixedFields(member, size);
    ChecksumField(Unsummed(member, size));
    FixedOctals();
    FixedBytes(s, member, size);
    SizeDigits(size);
    assert s[124..135] == OctalField(size, 12)[..11];
    forall k | 124 <= k < 135
      ensures s[k] == OctalField(size, 12)[k - 124]
    {
      assert s[k] == s[124..136][k - 124];
    }
    assert s[135] == s[124..136][11];
    assert MAGIC + VERSION == [117, 115, 116, 97, 114, 0, 48, 48];
  }

  // ---------------------------------------------------------------- archives read back

  /** What the reader finds at the start of some bytes: this record, and then the rest. */
  ghost predicate StartsWith(bytes: Bytes, r: Record, rest: Bytes) {
    var total := BLOCK + |r.bytes| + Padding(|r.bytes|);
    && |bytes| >= total
    && !AllZero(bytes[..BLOCK])
    && ReadHeader(bytes[..BLOCK]) == Some(Listing(r.member, |r.bytes|))
    && bytes[BLOCK..BLOCK + |r.bytes|] == r.bytes
    && bytes[total..] == rest
  }

  lemma EntryStarts(r: Record, rest: Bytes)
    requires Writable(r)
    ensures StartsWith(Entry(r) + rest, r, rest)
  {
    var size := |r.bytes|;
    var bytes := Entry(r) + rest;
    HeaderReadsBack(r.member, size);
    assert bytes[..BLOCK] == Header(r.member, size);
    assert bytes[BLOCK..BLOCK + size] == r.bytes;
    assert bytes[BLOCK + size + Padding(size)..] == rest;
  }

  lemma ReadsOn(bytes: Bytes, r: Record, rest: Bytes, records: seq<Record>)
    requires StartsWith(bytes, r, rest) && ReadArchive(rest) == Some(records)
    ensures ReadArchive(bytes) == Some([r] + records)
  {
  }

  lemma ClosingReadsBack()
    ensures ReadArchive(Zeros(2 * BLOCK)) == Some([])
  {
    var bytes := Zeros(2 * BLOCK);
    assert AllZero(bytes[..BLOCK]) && AllZero(bytes[BLOCK..2 * BLOCK]);
  }

  /** The bytes from each record on, down to the closing blocks. */
  ghost predicate Chain(records: seq<Record>, parts: seq<Bytes>) {
    |parts| == |records| + 1 && forall k {:trigger Linked(records, parts, k)} :: 0 <= k < |records| ==>
        Linked(records, parts, k)
  }

  ghost predicate Linked(records: seq<Record>, parts: seq<Bytes>, k: int)
    requires 0 <= k < |records| && |parts| == |records| + 1
  {
    StartsWith(parts[k], records[k], parts[k + 1])
  }

  ghost function Readings(parts: seq<Bytes>): (readings: seq<Option<seq<Record>>>)
    ensures |readings| == |parts| && forall k :: 0 <= k < |parts| ==> readings[k] == ReadArchive(parts[k])
  {
    seq(|parts|, k requires 0 <= k < |parts| => ReadArchive(parts[k]))
  }

  /** Each reading is its record before the next reading, down to the empty one. */
  lemma {:induction false} ReadingsAre(records: seq<Record>, readings: seq<Option<seq<Record>>>, k: nat)
    requires |readings| == |records| + 1 && k <= |records| && readings[|records|] == Some([])
    requires forall i :: 0 <= i < |records| && readings[i + 1].Some? ==>
        readings[i] == Some([records[i]] + readings[i + 1].value)
    ensures readings[k] == Some(records[k..])
    decreases |records| - k
  {
    if k < |records| {
      ReadingsAre(records, readings, k + 1);
      assert readings[k + 1].Some? && [records[k]] + records[k + 1..] == records[k..];
    } else {
      assert records[k..] == [];
    }
  }

  lemma ChainReadsBack(records: seq<Record>, parts: seq<Bytes>)
    requires Chain(records, parts) && ReadArchive(parts[|records|]) == Some([])
    ensures ReadArchive(parts[0]) == Some(records)
  {
    var readings := Readings(parts);
    forall i | 0 <= i < |records| && readings[i + 1].Some?
      ensures readings[i] == Some([records[i]] + readings[i + 1].value)
    {
      assert Linked(records, parts, i);
      ReadsOn(parts[i], records[i], parts[i + 1], readings[i + 1].value);
    }
    ReadingsAre(records, readings, 0);
    assert records[0..] == records;
  }

  lemma AllButLast(records: seq<Record>)
    requires records != [] && AllWritable(records)
    ensures Writable(records[|records| - 1]) && AllWritable(records[..|records| - 1])
  {
  }

  lemma LastEntry(records: seq<Record>)
    requires records != [] && AllWritable(records)
    ensures AllWritable(records[..|records| - 1]) && Writable(records[|records| - 1])
    ensures Entries(records) == Entries(records[..|records| - 1]) + Entry(records[|records| - 1])
  {
    AllButLast(records);
  }

  lemma Joined(a: Bytes, b: Bytes, c: Bytes)
    ensures (a + b) + c == a + (b + c)
    ensures |a + b| == |a| + |b|
  {
  }

  lemma {:induction false} EntriesChain(records: seq<Record>, rest: Bytes) returns (parts: seq<Bytes>)
    requires AllWritable(records)
    ensures Chain(records, parts) && parts[0] == Entries(records) + rest && parts[|records|] == rest
  {
    if records == [] {
      parts := [rest];
    } else {
      var n := |records| - 1;
      assert Writable(records[n]);
      var before := EntriesChain(records[..n], Entry(records[n]) + rest);
      LastEntry(records);
      Joined(Entries(records[..n]), Entry(records[n]), rest);
      EntryStarts(records[n], rest);
      parts := before + [rest];
      ChainGrows(records, before, rest);
    }
  }

  lemma ChainGrows(records: seq<Record>, before: seq<Bytes>, rest: Bytes)
    requires records != [] && Chain(records[..|records| - 1], before)
    requires StartsWith(before[|records| - 1], records[|records| - 1], rest)
    ensures Chain(records, before + [rest])
  {
    var parts := before + [rest];
    forall k | 0 <= k < |records|
      ensures Linked(records, parts, k)
    {
      if k < |records| - 1 {
        assert Linked(records[..|records| - 1], before, k);
      }
    }
  }

  lemma EntriesReadBack(records: seq<Record>)
    requires AllWritable(records)
    ensures ReadArchive(Archive(records)) == Some(records)
  {
    var parts := EntriesChain(records, Zeros(2 * BLOCK));
    ClosingReadsBack();
    ChainReadsBack(records, parts);
  }

  lemma EntryFillsBlocks(r: Record)
    requires Writable(r)
    ensures |Entry(r)| % BLOCK == 0
  {
    WholeBlocks(BLOCK, |r.bytes| + Padding(|r.bytes|));
  }

  lemma WholeBlocks(a: nat, b: nat)
    requires a % BLOCK == 0 && b % BLOCK == 0
    ensures (a + b) % BLOCK == 0
  {
  }

  lemma JoinedFill(a: Bytes, b: Bytes)
    requires |a| % BLOCK == 0 && |b| % BLOCK == 0
    ensures |a + b| % BLOCK == 0
  {
    WholeBlocks(|a|, |b|);
  }

  lemma {:induction false} EntriesFillBlocks(records: seq<Record>)
    requires AllWritable(records)
    ensures |Entries(records)| % BLOCK == 0
  {
    if records != [] {
      var n := |records| - 1;
      assert Writable(records[n]);
      EntriesFillBlocks(records[..n]);
      LastEntry(records);
      EntryFillsBlocks(records[n]);
      JoinedFill(Entries(records[..n]), Entry(records[n]));
    }
  }

  lemma SortedRecords(records: seq<Record>)
    requires Acceptable(records)
    ensures Sorted(RecordLe, SortBy(RecordLe, records)) && multiset(SortBy(RecordLe, records)) == multiset(records)
    ensures AllWritable(SortBy(RecordLe, records))
  {
    TextOrder();
    SortKeeps(RecordLe, records);
    SortSorts(RecordLe, records);
    WritableAnyOrder(records, SortBy(RecordLe, records));
  }

  lemma NamesAscend(records: seq<Record>)
    requires Acceptable(records)
    ensures var sorted := SortBy(RecordLe, records);
      forall i, j :: 0 <= i < j < |sorted| ==>
        TextLe(sorted[i].member, sorted[j].member) && sorted[i].member != sorted[j].member
  {
    var sorted := SortBy(RecordLe, records);
    SortedRecords(records);
    KeyedAnyOrder(MemberOf, records, sorted);
    forall i, j | 0 <= i < j < |sorted|
      ensures TextLe(sorted[i].member, sorted[j].member) && sorted[i].member != sorted[j].member
    {
      assert RecordLe(sorted[i], sorted[j]) && MemberOf(sorted[i]) != MemberOf(sorted[j]);
    }
  }

  /** A reader of the format gets back exactly the records, sorted by member name. */
  lemma ArchiveReadsBack(records: seq<Record>)
    requires Acceptable(records)
    ensures var sorted := SortBy(RecordLe, records);
      && multiset(sorted) == multiset(records) && AllWritable(sorted)
      && (forall i, j :: 0 <= i < j < |sorted| ==>
            TextLe(sorted[i].member, sorted[j].member) && sorted[i].member != sorted[j].member)
      && ReadArchive(Archive(sorted)) == Some(sorted)
  {
    SortedRecords(records);
    NamesAscend(records);
    EntriesReadBack(SortBy(RecordLe, records));
  }

  /** A record's entry is its header, its bytes and zeros up to the next block; what closes an
      archive is two blocks of zeros. */
  lemma EntryLayout(r: Record)
    requires Writable(r)
    ensures var e, size := Entry(r), |r.bytes|;
      && |e| % 512 == 0 && 512 + size <= |e| < 512 + size + 512
      && IsHeader(e[..512], r.member, size) && e[512..512 + size] == r.bytes && AllZero(e[512 + size..])
    ensures |Archive([])| == 1024 && AllZero(Archive([]))
  {
    HeaderIs(r.member, |r.bytes|);
    EntryFillsBlocks(r);
    assert Entry(r)[..512] == Header(r.member, |r.bytes|);
    assert Entry(r)[512 + |r.bytes|..] == Zeros(Padding(|r.bytes|));
  }

  /** An archive is made of whole blocks. */
  lemma ArchiveFillsBlocks(records: seq<Record>)
    requires AllWritable(records)
    ensures |Archive(records)| % BLOCK == 0
  {
    EntriesFillBlocks(records);
    assert |Zeros(2 * BLOCK)| == 2 * BLOCK;
    JoinedFill(Entries(records), Zeros(2 * BLOCK));
  }

  lemma NamesTellApart(records: seq<Record>)
    requires Keyed(MemberOf, records)
    ensures Distinguished(RecordLe, records)
  {
    TextOrder();
    forall i, j | 0 <= i < |records| && 0 <= j < |records| && RecordLe(records[i], records[j])
        && RecordLe(records[j], records[i])
      ensures records[i] == records[j]
    {
      assert records[i].member == records[j].member;
      SameKeySameElement(MemberOf, records, records[i], records[j]);
    }
  }

  /** Permuting the input records leaves the bytes unchanged. */
  lemma BundleForgetsOrder(a: seq<Record>, b: seq<Record>)
    requires multiset(a) == multiset(b) && Acceptable(a)
    ensures Acceptable(b) && SortBy(RecordLe, a) == SortBy(RecordLe, b)
  {
    SameElements(a, b);
    KeyedAnyOrder(MemberOf, a, b);
    WritableAnyOrder(a, b);
    NamesTellApart(a);
    TextOrder();
    SortForgetsOrder(RecordLe, a, b);
  }
}
